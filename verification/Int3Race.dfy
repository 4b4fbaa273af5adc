/**
 The hypotheses of the INT3 theorems are not decoration: for each of the five hazards
 a run from a fresh process in which that hazard alone costs a trapped thread the right
 answer, and runs in which the handler is gone while a thread is at a trap that the
 in-flight check could not know or did not see.
 */
module Int3Race {
  import opened Options
  import opened Int3Protocol
  import opened Int3Safety
  import opened Int3Runs
  import opened Int3InFlight

  const SITE := 0x1000
  const KEPT := 0x2000
  const OTHER := 0x4000
  const SITE_DETOUR := 0xA000
  const KEPT_DETOUR := 0xB000
  const OTHER_DETOUR := 0xC000

  const CODE := map[0x1000 := 0x90, 0x2000 := 0x90, 0x4000 := 0x90]

  const FRESH := State(CODE, CODE, seq(MAX_HOOKS, _ => 0), seq(MAX_HOOKS, _ => 0), seq(RETIRED_LEN, _ => 0),
                       0, [], false, map[], Idle, map[0 := Running, 1 := Running])

  /** Thread 1, trapped at the site. */
  function AtSite(slot: nat, removal: Option<nat>, hazards: set<Hazard>, pc: Pc): map<Tid, Thread> {
    map[0 := Running, 1 := Trapped(SITE, slot, removal, hazards, pc)]
  }

  lemma HitOnce(th: Thread, h: Hazard)
    requires th.Trapped? && th.hazards == {}
    ensures Hit(th, h) == th.(hazards := {h})
  {
    assert th.hazards + {h} == {h};
  }

  /** A table with at most two slots in use. */
  function Slots(first: Addr, second: Addr): seq<Addr> {
    seq(MAX_HOOKS, i => if i == 0 then first else if i == 1 then second else 0)
  }

  /** `KEPT` is hooked in slot 0, so the handler stays; the site is hooked in slot 1 if `hooked`. */
  predicate Scene(s: State, hooked: bool) {
    && s.writer == Idle && s.handler && s.code == CODE
    && s.slotTarget == Slots(KEPT, if hooked then SITE else 0)
    && s.slotDetour == Slots(KEPT_DETOUR, if hooked then SITE_DETOUR else 0)
    && s.mem == CODE[KEPT := INT3][SITE := if hooked then INT3 else 0x90]
    && s.hooks == if hooked then map[KEPT := Hook(0, 0x90, KEPT_DETOUR), SITE := Hook(1, 0x90, SITE_DETOUR)]
                  else map[KEPT := Hook(0, 0x90, KEPT_DETOUR)]
  }

  lemma TwoHooks(p: State -> bool) returns (s: State)
    requires Closed(p) && p(FRESH)
    ensures p(s) && Shape(s) && Scene(s, true) && s.threads == FRESH.threads
    ensures s.log == [] && s.ring == FRESH.ring && s.retiredNext == 0
  {
    s := ArmRun(p, FRESH, 0, KEPT, KEPT_DETOUR, 0);
    assert s.threads == FRESH.threads;
    s := ArmRun(p, s, 0, SITE, SITE_DETOUR, 1);
    assert s.threads == FRESH.threads;
  }

  lemma TrapsAtSite(p: State -> bool) returns (s: State)
    requires Closed(p) && p(FRESH)
    ensures p(s) && Shape(s) && Scene(s, true) && s.threads == AtSite(1, None, {}, Entry)
    ensures s.log == [] && s.ring == FRESH.ring && s.retiredNext == 0
  {
    s := TwoHooks(p);
    s := Next(p, s, Trap(1, SITE));
  }

  /** The site is unhooked before the trapped thread reaches the handler. */
  lemma UnhookedUnderneath(p: State -> bool) returns (s: State)
    requires Closed(p) && p(FRESH)
    ensures p(s) && Shape(s) && Scene(s, false) && s.threads == AtSite(1, Some(0), {}, Entry)
    ensures s.log == [SITE] && s.ring == FRESH.ring[0 := SITE] && s.retiredNext == 1
  {
    var s0 := TrapsAtSite(p);
    s := RemoveRun(p, s0, 0, SITE, 0);
    assert s.threads == AtSite(1, Some(0), {}, Entry);
  }

  // ---------------------------------------------------------- unhook in window

  /** The handler finds no slot, then its address in the ring. */
  lemma FindsRetired(p: State -> bool, s: State) returns (s': State)
    requires Closed(p) && p(s) && Shape(s) && Live(s, 1) && s.handler
    requires s.threads[1].Trapped? && s.threads[1].pc == Entry && Unused(s, s.threads[1].addr)
    requires s.ring[0] == s.threads[1].addr
    ensures p(s') && Shape(s') && s' == s.(threads := s.threads[1 := s.threads[1].(pc := ReadByte)])
  {
    s' := Next(p, s, Handle(1));
    s' := ScanFindsNothing(p, s', 1);
    s' := Next(p, s', Handle(1));
    s' := Next(p, s', Handle(1));
    assert s'.threads == s.threads[1 := s'.threads[1]];
  }

  /** It then reads the 0xCC of a second install at the same address. */
  lemma ReadsRehookedByte(p: State -> bool) returns (s: State)
    requires Closed(p) && p(FRESH)
    ensures p(s) && Shape(s) && Scene(s, true) && s.threads == AtSite(1, Some(0), {}, LoadTarget(0, true))
    ensures s.log == [SITE] && s.retiredNext == 1
  {
    var s1 := UnhookedUnderneath(p);
    s1 := FindsRetired(p, s1);
    assert s1.threads == AtSite(1, Some(0), {}, ReadByte);
    s := ArmRun(p, s1, 0, SITE, SITE_DETOUR, 1);
    assert s.threads == s1.threads;
    s := Next(p, s, Handle(1));
  }

  lemma WindowRun(p: State -> bool) returns (s: State)
    requires Closed(p) && p(FRESH)
    ensures p(s) && s.threads == AtSite(1, Some(0), {UnhookedInWindow}, Answered(PassedOn))
  {
    var s1 := ReadsRehookedByte(p);
    s := RemoveRun(p, s1, 0, SITE, 0);
    HitOnce(s1.threads[1], UnhookedInWindow);
    assert s.threads == AtSite(1, Some(0), {UnhookedInWindow}, LoadTarget(0, true));
    s := ScanFindsNothing(p, s, 1);
    s := Next(p, s, Handle(1));
  }

  // ------------------------------------------------------------------ forgotten

  lemma TrapsAtOnlyHook(p: State -> bool) returns (s: State)
    requires Closed(p) && p(FRESH)
    ensures p(s) && Shape(s) && s.writer == Idle && s.handler && s.slotTarget == Slots(SITE, 0) && s.ring == FRESH.ring
    ensures s.hooks == map[SITE := Hook(0, 0x90, SITE_DETOUR)] && s.code == CODE
    ensures s.threads == AtSite(0, None, {}, Entry)
  {
    s := ArmRun(p, FRESH, 0, SITE, SITE_DETOUR, 0);
    assert s.threads == FRESH.threads;
    s := Next(p, s, Trap(1, SITE));
  }

  lemma ForgottenTrap(p: State -> bool) returns (s: State)
    requires Closed(p) && p(FRESH)
    ensures p(s) && Shape(s) && s.writer == Idle && s.handler && AllSlotsFree(s) && SITE !in s.ring
    ensures s.threads == AtSite(0, None, {Forgotten}, Entry)
  {
    s := TrapsAtOnlyHook(p);
    HitOnce(s.threads[1], Forgotten);
    s := Next(p, s, Forget(SITE, 0x90));
  }

  lemma ForgottenRun(p: State -> bool) returns (s: State)
    requires Closed(p) && p(FRESH)
    ensures p(s) && s.threads == AtSite(0, None, {Forgotten}, Answered(PassedOn))
  {
    s := ForgottenTrap(p);
    s := FindsNothing(p, s, 1);
  }

  /** The check does not see the forgotten trap and the handler is unregistered under it. */
  lemma ForgottenReleaseRun(p: State -> bool) returns (s: State)
    requires Closed(p) && p(FRESH)
    ensures p(s) && !s.handler && s.threads == AtSite(0, None, {Forgotten}, Entry)
  {
    s := ForgottenTrap(p);
    s := Next(p, s, StartRelease(0));
    s := ReleaseRun(p, s);
  }

  // ------------------------------------------------------------ failed restore

  /** The restoring write fails: a 0xCC stays that no hook owns. */
  lemma RestoreFails(p: State -> bool) returns (s: State)
    requires Closed(p) && p(FRESH)
    ensures p(s) && Shape(s) && s.writer == ClearTarget(0, SITE, SITE_DETOUR, 1) && s.handler
    ensures s.slotTarget == Slots(KEPT, SITE) && s.ring[0] == SITE
    ensures SITE in s.mem && s.mem[SITE] == INT3 && SITE !in s.hooks
    ensures s.threads == AtSite(1, Some(0), {ForeignByte}, Entry)
  {
    var s1 := TrapsAtSite(p);
    s := LogRun(p, s1, 0, SITE);
    HitOnce(s.threads[1], ForeignByte);
    s := Next(p, s, WriterStep(0, false));
    assert s.threads == AtSite(1, Some(0), {ForeignByte}, Entry);
  }

  lemma ForeignByteStays(p: State -> bool) returns (s: State)
    requires Closed(p) && p(FRESH)
    ensures p(s) && Shape(s) && s.writer == Idle && s.handler && Unused(s, SITE) && s.ring[0] == SITE
    ensures SITE in s.mem && s.mem[SITE] == INT3 && SITE !in s.hooks
    ensures s.threads == AtSite(1, Some(0), {ForeignByte}, Entry)
  {
    s := RestoreFails(p);
    s := Next(p, s, WriterStep(0, true));
    s := Next(p, s, WriterStep(0, true));
    s := LiveScanStops(p, s, 0);
    assert s.threads == AtSite(1, Some(0), {ForeignByte}, Entry);
  }

  lemma ForeignByteRun(p: State -> bool) returns (s: State)
    requires Closed(p) && p(FRESH)
    ensures p(s) && s.threads == AtSite(1, Some(0), {ForeignByte}, Answered(PassedOn))
  {
    s := ForeignByteStays(p);
    s := FindsRetired(p, s);
    s := Next(p, s, Handle(1));
    s := ScanFindsNothing(p, s, 1);
    s := Next(p, s, Handle(1));
  }

  // ---------------------------------------------------------------- slot reuse

  /** The thread has matched the target of slot 1 and is about to load its detour. */
  lemma BetweenLoads(p: State -> bool) returns (s: State)
    requires Closed(p) && p(FRESH)
    ensures p(s) && Shape(s) && Scene(s, true) && s.threads == AtSite(1, None, {}, LoadDetour(1, false))
    ensures s.log == [] && s.retiredNext == 0
  {
    s := TrapsAtSite(p);
    s := Next(p, s, Handle(1));
    s := Next(p, s, Handle(1));
    s := Next(p, s, Handle(1));
  }

  lemma UnhookedBetweenLoads(p: State -> bool) returns (s: State)
    requires Closed(p) && p(FRESH)
    ensures p(s) && Shape(s) && Scene(s, false) && s.threads == AtSite(1, Some(0), {}, LoadDetour(1, false))
  {
    var s1 := BetweenLoads(p);
    s := RemoveRun(p, s1, 0, SITE, 0);
    assert s.threads == AtSite(1, Some(0), {}, LoadDetour(1, false));
  }

  lemma SlotReuseRun(p: State -> bool) returns (s: State)
    requires Closed(p) && p(FRESH)
    ensures p(s) && s.writer == Idle && SITE !in s.hooks
    ensures s.threads == AtSite(1, Some(0), {SlotReused}, Answered(ToDetour(OTHER_DETOUR)))
  {
    var s1 := UnhookedBetweenLoads(p);
    HitOnce(s1.threads[1], SlotReused);
    s := ArmRun(p, s1, 0, OTHER, OTHER_DETOUR, 1);
    assert s.threads == AtSite(1, Some(0), {SlotReused}, LoadDetour(1, false));
    s := Next(p, s, Handle(1));
  }

  // --------------------------------------------------------------- ring overrun

  /** One more hook comes and goes at another address. */
  lemma ComesAndGoes(p: State -> bool, s: State, th: map<Tid, Thread>) returns (s': State)
    requires Closed(p) && p(s) && Shape(s) && Scene(s, false) && s.retiredNext < RETIRED_LEN
    requires s.threads == AtSite(1, Some(0), {}, Entry)
    requires th == AtSite(1, Some(0), if RETIRED_LEN <= |s.log| then {RingOverrun} else {}, Entry)
    ensures p(s') && Shape(s') && Scene(s', false) && s'.threads == th
    ensures |s'.log| == |s.log| + 1 && s'.ring == s.ring[s.retiredNext := OTHER]
    ensures s'.retiredNext == (s.retiredNext + 1) % RETIRED_LEN
  {
    s' := ArmRun(p, s, 0, OTHER, OTHER_DETOUR, 1);
    s' := RemoveRun(p, s', 0, OTHER, 0);
    RemoveUndoesArm(s, OTHER, OTHER_DETOUR, 1);
    ThreadsAfterOther(|s.log|);
  }

  /** The trapped thread is not concerned by hooks at another address, until the ring has gone round. */
  lemma ThreadsAfterOther(k: nat)
    ensures Retired(Reused(AtSite(1, Some(0), {}, Entry), OTHER, 1), OTHER, k)
         == AtSite(1, Some(0), if RETIRED_LEN <= k then {RingOverrun} else {}, Entry)
  {
    HitOnce(Trapped(SITE, 1, Some(0), {}, Entry), RingOverrun);
  }

  predicate Overwritten(ring: seq<Addr>, n: nat)
    requires |ring| == RETIRED_LEN
  {
    forall j :: 1 <= j <= n && j < RETIRED_LEN ==> ring[j] == OTHER
  }

  /** `n` removals later, all but the oldest entry of the ring are overwritten. */
  lemma {:induction false} Churn(p: State -> bool, s: State, n: nat) returns (s': State)
    requires Closed(p) && p(s) && Shape(s) && Scene(s, false) && s.threads == AtSite(1, Some(0), {}, Entry)
    requires |s.log| == 1 && s.retiredNext == 1 && n < RETIRED_LEN
    ensures p(s') && Shape(s') && Scene(s', false) && s'.threads == s.threads
    ensures |s'.log| == n + 1 && s'.retiredNext == (n + 1) % RETIRED_LEN && Overwritten(s'.ring, n)
    decreases n
  {
    if n == 0 {
      s' := s;
    } else {
      s' := Churn(p, s, n - 1);
      s' := ComesAndGoes(p, s', s.threads);
    }
  }

  lemma PushedOut(p: State -> bool) returns (s: State)
    requires Closed(p) && p(FRESH)
    ensures p(s) && Shape(s) && Scene(s, false) && s.threads == AtSite(1, Some(0), {RingOverrun}, Entry)
    ensures SITE !in s.ring && KEPT !in s.ring
  {
    s := UnhookedUnderneath(p);
    s := Churn(p, s, RETIRED_LEN - 1);
    s := ComesAndGoes(p, s, AtSite(1, Some(0), {RingOverrun}, Entry));
  }

  lemma RingOverrunRun(p: State -> bool) returns (s: State)
    requires Closed(p) && p(FRESH)
    ensures p(s) && s.threads == AtSite(1, Some(0), {RingOverrun}, Answered(PassedOn))
  {
    s := PushedOut(p);
    s := FindsNothing(p, s, 1);
  }

  lemma HitAgain(k: nat)
    ensures Retired(AtSite(1, Some(0), {RingOverrun}, Entry), KEPT, k) == AtSite(1, Some(0), {RingOverrun}, Entry)
  {
    assert {RingOverrun} + {RingOverrun} == {RingOverrun};
  }

  /** The last hook goes, the check does not see the trap that was pushed out, and neither does the handler. */
  lemma OverrunReleaseRun(p: State -> bool) returns (s: State)
    requires Closed(p) && p(FRESH)
    ensures p(s) && !s.handler && s.threads == AtSite(1, Some(0), {RingOverrun}, Entry)
  {
    var s1 := PushedOut(p);
    s := RemoveStores(p, s1, 0, KEPT);
    HitAgain(|s1.log|);
    s := ReleaseRun(p, s);
  }

  // --------------------------------------------------------------- leftover byte

  lemma LogsOnlyHook(p: State -> bool) returns (s: State)
    requires Closed(p) && p(FRESH)
    ensures p(s) && Shape(s) && s.writer == Restore(0, SITE, 0) && s.handler && s.slotTarget == Slots(SITE, 0)
    ensures s.hooks == map[SITE := Hook(0, 0x90, SITE_DETOUR)] && SITE in s.mem && s.mem[SITE] == INT3
    ensures SITE in s.ring && s.threads == FRESH.threads
  {
    s := ArmRun(p, FRESH, 0, SITE, SITE_DETOUR, 0);
    assert s.threads == FRESH.threads;
    s := LogRun(p, s, 0, SITE);
    assert s.ring[0] == SITE && s.threads == FRESH.threads;
  }

  lemma FailsToRestoreOnlyHook(p: State -> bool) returns (s: State)
    requires Closed(p) && p(FRESH)
    ensures p(s) && Shape(s) && s.writer == ClearTarget(0, SITE, SITE_DETOUR, 0) && s.handler
    ensures s.slotTarget == Slots(SITE, 0) && SITE in s.ring && s.threads == FRESH.threads
    ensures SITE in s.mem && s.mem[SITE] == INT3 && SITE in s.code && s.code[SITE] == INT3 && SITE !in s.hooks
  {
    s := LogsOnlyHook(p);
    s := Next(p, s, WriterStep(0, false));
    assert s.threads == FRESH.threads;
  }

  /** The only hook is removed while nobody is trapped, and its byte cannot be restored. */
  lemma LeavesByteBehind(p: State -> bool) returns (s: State)
    requires Closed(p) && p(FRESH)
    ensures p(s) && Shape(s) && s.writer == IdleScan(0, 0) && s.handler && AllSlotsFree(s) && SITE in s.ring
    ensures SITE in s.mem && s.mem[SITE] == INT3 && SITE in s.code && s.code[SITE] == INT3 && SITE !in s.hooks
    ensures s.threads == FRESH.threads
  {
    s := FailsToRestoreOnlyHook(p);
    s := Next(p, s, WriterStep(0, true));
    s := Next(p, s, WriterStep(0, true));
    assert s.threads == FRESH.threads;
  }

  /** Once the handler is gone and the ring wiped, a thread traps on that byte. */
  lemma LeftoverByteRun(p: State -> bool) returns (s: State)
    requires Closed(p) && p(FRESH)
    ensures p(s) && s.writer == Idle && !s.handler && SITE !in s.ring && SITE !in s.hooks
    ensures s.threads == AtSite(0, None, {ForeignByte}, Entry)
  {
    s := LeavesByteBehind(p);
    s := ReleaseRun(p, s);
    s := Next(p, s, Trap(1, SITE));
  }

  /** Or it traps there after the check has passed it over, when the ring still knows the address. */
  lemma OverlookedRun(p: State -> bool) returns (s: State)
    requires Closed(p) && p(FRESH)
    ensures p(s) && s.writer.Wipe? && !s.handler && SITE in s.ring
    ensures s.threads == AtSite(0, None, {ForeignByte}, Entry)
  {
    s := LeavesByteBehind(p);
    s := IdleScanRun(p, s);
    s := CheckRun(p, s);
    s := Next(p, s, Trap(1, SITE));
    s := Next(p, s, WriterStep(0, true));
  }

  // ---------------------------------------------------------------- the theorems

  /** Thread 1 trapped at the site, met only hazard `h`, and got verdict `v`. */
  predicate Answer(s: State, h: Hazard, v: Verdict) {
    && 1 in s.threads && s.threads[1].Trapped?
    && s.threads[1].hazards == {h} && s.threads[1].pc == Answered(v)
  }

  ghost function AllReachable(): State -> bool { s => Reachable(s) }

  lemma ReachableIsClosed(p: State -> bool)
    requires p == AllReachable()
    ensures Closed(p) && p(FRESH)
  {
    InitReachable(FRESH);
    forall s | Reachable(s) ensures Shape(s) { ReachableInv(s); }
    forall s, e | Reachable(s) && Shape(s) && Enabled(s, e) ensures Reachable(Apply(s, e)) { ReachableNext(s, e); }
  }

  /** A thread that trapped on our byte is passed on in a run that unhooks in the window. */
  lemma WindowRaceLosesATrap()
    ensures exists s :: Reachable(s) && Answer(s, UnhookedInWindow, PassedOn)
  {
    var p := AllReachable();
    ReachableIsClosed(p);
    var s := WindowRun(p);
    assert Answer(s, UnhookedInWindow, PassedOn);
  }

  /** So is one whose target was forgotten, */
  lemma ForgottenTrapIsLost()
    ensures exists s :: Reachable(s) && Answer(s, Forgotten, PassedOn)
  {
    var p := AllReachable();
    ReachableIsClosed(p);
    var s := ForgottenRun(p);
    assert Answer(s, Forgotten, PassedOn);
  }

  /** one whose byte could not be restored, */
  lemma FailedRestoreLosesATrap()
    ensures exists s :: Reachable(s) && Answer(s, ForeignByte, PassedOn)
  {
    var p := AllReachable();
    ReachableIsClosed(p);
    var s := ForeignByteRun(p);
    assert Answer(s, ForeignByte, PassedOn);
  }

  /** and one that 1024 later removals have pushed out of the ring. */
  lemma RingOverrunLosesATrap()
    ensures exists s :: Reachable(s) && Answer(s, RingOverrun, PassedOn)
  {
    var p := AllReachable();
    ReachableIsClosed(p);
    var s := RingOverrunRun(p);
    assert Answer(s, RingOverrun, PassedOn);
  }

  /** A slot reused between the two loads sends the thread to the detour of another address. */
  lemma ReusedSlotMisleads()
    ensures exists s, d :: Reachable(s) && Answer(s, SlotReused, ToDetour(d)) && !OwnDetour(s, s.threads[1].addr, d)
  {
    var p := AllReachable();
    ReachableIsClosed(p);
    var s := SlotReuseRun(p);
    assert Answer(s, SlotReused, ToDetour(OTHER_DETOUR)) && !OwnDetour(s, SITE, OTHER_DETOUR);
  }

  /** The handler can be gone while a trap of a forgotten target is still being dispatched. */
  lemma ForgottenTrapIsNotAwaited()
    ensures exists s :: Reachable(s) && !s.handler && 1 in s.threads && s.threads[1].Trapped?
              && s.threads[1].hazards == {Forgotten}
  {
    var p := AllReachable();
    ReachableIsClosed(p);
    var s := ForgottenReleaseRun(p);
    assert s.threads[1].hazards == {Forgotten};
  }

  /** And while one that the ring has dropped is. */
  lemma OverrunTrapIsNotAwaited()
    ensures exists s :: Reachable(s) && !s.handler && 1 in s.threads && s.threads[1].Trapped?
              && s.threads[1].hazards == {RingOverrun}
  {
    var p := AllReachable();
    ReachableIsClosed(p);
    var s := OverrunReleaseRun(p);
    assert s.threads[1].hazards == {RingOverrun};
  }

  /** And while a thread is at a byte that could not be restored, whose address the ring no longer has, */
  lemma LeftoverTrapIsNotAwaited()
    ensures exists s :: Reachable(s) && !s.handler && 1 in s.threads && s.threads[1].Trapped?
              && s.threads[1].hazards == {ForeignByte} && !AddrKnown(s, s.threads[1].addr)
  {
    var p := AllReachable();
    ReachableIsClosed(p);
    var s := LeftoverByteRun(p);
    assert s.threads[1].hazards == {ForeignByte};
  }

  /** or still has, when the check passed the thread over before it trapped. */
  lemma OverlookedTrapIsNotAwaited()
    ensures exists s, t :: Reachable(s) && !s.handler && TrappedAtKnown(s, t)
  {
    var p := AllReachable();
    ReachableIsClosed(p);
    var s := OverlookedRun(p);
    assert Reachable(s) && TrappedAtKnown(s, 1);
  }
}
