/**
 Whole operations of the lock holder as runs of the protocol, undisturbed by other
 steps: `arm`, `remove` and `release_idle_handler` from start to end, and a handler
 that scans without finding anything.

 A run is followed by way of a set of states that no step leaves: what holds of every
 such set around the first state holds of the states a run leads to.
 */
module Int3Runs {
  import opened Options
  import opened Int3Protocol
  import opened Int3Safety

  /** A set of states that no step leaves. */
  ghost predicate Closed(p: State -> bool) {
    && (forall s :: p(s) ==> Shape(s))
    && (forall s, e {:trigger p(Apply(s, e))} :: p(s) && Enabled(s, e) ==> p(Apply(s, e)))
  }

  lemma Next(p: State -> bool, s: State, e: Event) returns (s': State)
    requires Closed(p) && p(s) && Enabled(s, e)
    ensures s' == Apply(s, e) && p(s') && Shape(s')
  {
    s' := Apply(s, e);
    assert p(s');
  }

  // --------------------------------------------------------------------- arm

  /** The scan of `arm` runs to its end with the first free slot. */
  lemma {:induction false} SlotScanRun(p: State -> bool, s: State, f: nat) returns (s': State)
    requires Closed(p) && p(s) && Shape(s) && s.writer.ArmScan? && Unused(s, s.writer.target)
    requires FirstFree(s.slotTarget, f) && s.writer.free == if s.writer.i > f then Some(f) else None
    ensures p(s') && Shape(s')
    ensures s' == s.(writer := ArmRegister(s.writer.me, s.writer.target, s.writer.detour, f))
    decreases MAX_HOOKS - s.writer.i
  {
    var i := s.writer.i;
    s' := Next(p, s, WriterStep(0, true));
    if i < MAX_HOOKS {
      s' := SlotScanRun(p, s', f);
    }
  }

  function Reused(threads: map<Tid, Thread>, a: Addr, slot: nat): map<Tid, Thread> {
    map t | t in threads :: OnReuse(threads[t], a, slot)
  }

  /** The state after an undisturbed `arm` into slot `f`. */
  function Armed(s: State, a: Addr, d: Addr, f: nat): State
    requires f < |s.slotTarget| == |s.slotDetour| && a in s.mem
  {
    s.(slotTarget := s.slotTarget[f := a], slotDetour := s.slotDetour[f := d], handler := true,
       mem := s.mem[a := INT3], hooks := s.hooks[a := Hook(f, s.mem[a], d)], threads := Reused(s.threads, a, f))
  }

  lemma PublishRun(p: State -> bool, s: State) returns (s': State)
    requires Closed(p) && p(s) && Shape(s) && s.writer.ArmDetour?
    ensures p(s') && Shape(s') && s'.writer.ArmWrite?
    ensures var ArmDetour(me, a, d, f) := s.writer;
            s' == s.(slotTarget := s.slotTarget[f := a], slotDetour := s.slotDetour[f := d],
                     threads := Reused(s.threads, a, f), writer := ArmWrite(me, a, d, f))
  {
    s' := Next(p, s, WriterStep(0, true));
    s' := Next(p, s', WriterStep(0, true));
  }

  lemma ArmRun(p: State -> bool, s: State, me: Tid, a: Addr, d: Addr, f: nat) returns (s': State)
    requires Closed(p) && p(s) && Shape(s) && Enabled(s, StartArm(me, a, d))
    requires a in s.mem && Unused(s, a) && FirstFree(s.slotTarget, f)
    ensures p(s') && Shape(s') && s' == Armed(s, a, d, f)
  {
    s' := Next(p, s, StartArm(me, a, d));
    s' := SlotScanRun(p, s', f);
    s' := Next(p, s', WriterStep(0, true));
    s' := PublishRun(p, s');
    s' := Next(p, s', WriterStep(0, true));
  }

  /** The scan rejects a target that some slot still to come has, and a table without a free slot. */
  lemma {:induction false} RejectingScanRun(p: State -> bool, s: State) returns (s': State)
    requires Closed(p) && p(s) && Shape(s) && s.writer.ArmScan?
    requires (exists x :: s.writer.i <= x < MAX_HOOKS && s.slotTarget[x] == s.writer.target)
             || (s.writer.free.None? && forall x :: s.writer.i <= x < MAX_HOOKS ==> s.slotTarget[x] != 0)
    ensures p(s') && Shape(s') && s' == s.(writer := Idle)
    decreases MAX_HOOKS - s.writer.i
  {
    s' := Next(p, s, WriterStep(0, true));
    if s'.writer.ArmScan? {
      s' := RejectingScanRun(p, s');
    }
  }

  /** An `arm` that cannot register the handler changes nothing. */
  lemma UnregisteredRun(p: State -> bool, s: State, me: Tid, a: Addr, d: Addr, f: nat) returns (s': State)
    requires Closed(p) && p(s) && Shape(s) && Enabled(s, StartArm(me, a, d)) && !s.handler
    requires Unused(s, a) && FirstFree(s.slotTarget, f)
    ensures p(s') && Shape(s') && s' == s
  {
    s' := Next(p, s, StartArm(me, a, d));
    s' := SlotScanRun(p, s', f);
    s' := Next(p, s', WriterStep(0, false));
  }

  /** The state when only the handler is left to see to after the byte write has failed. */
  function Undone(s: State, me: Tid, a: Addr, f: nat): State
    requires f < |s.slotDetour|
  {
    s.(slotDetour := s.slotDetour[f := 0], handler := true, threads := Reused(s.threads, a, f),
       writer := IdleScan(me, 0))
  }

  lemma UndoRun(p: State -> bool, s: State) returns (s': State)
    requires Closed(p) && p(s) && Shape(s) && s.writer.ArmWrite?
    ensures p(s') && Shape(s')
    ensures var ArmWrite(me, _, _, f) := s.writer;
            s' == s.(slotTarget := s.slotTarget[f := 0], slotDetour := s.slotDetour[f := 0], writer := IdleScan(me, 0))
  {
    s' := Next(p, s, WriterStep(0, false));
    s' := Next(p, s', WriterStep(0, true));
    s' := Next(p, s', WriterStep(0, true));
  }

  /** A failed byte write takes the publication back. */
  lemma RollBackRun(p: State -> bool, s: State, me: Tid, a: Addr, d: Addr, f: nat) returns (s': State)
    requires Closed(p) && p(s) && Shape(s) && Enabled(s, StartArm(me, a, d))
    requires Unused(s, a) && FirstFree(s.slotTarget, f)
    ensures p(s') && Shape(s') && s' == Undone(s, me, a, f)
  {
    s' := Next(p, s, StartArm(me, a, d));
    s' := SlotScanRun(p, s', f);
    s' := Next(p, s', WriterStep(0, true));
    s' := PublishRun(p, s');
    s' := UndoRun(p, s');
    assert s'.slotTarget == s.slotTarget && s'.slotDetour == s.slotDetour[f := 0];
  }

  // ------------------------------------------------------------------ remove

  function Retired(threads: map<Tid, Thread>, a: Addr, k: nat): map<Tid, Thread> {
    map t | t in threads :: OnClear(OnRetire(threads[t], a, k), a)
  }

  /** The state after an undisturbed `remove` that leaves the handler. */
  function Removed(s: State, a: Addr): State
    requires a in s.hooks && s.hooks[a].slot < |s.slotTarget| == |s.slotDetour| && s.retiredNext < |s.ring|
  {
    var h := s.hooks[a];
    s.(ring := s.ring[s.retiredNext := a], retiredNext := (s.retiredNext + 1) % RETIRED_LEN, log := s.log + [a],
       mem := s.mem[a := h.saved], hooks := s.hooks - {a}, slotTarget := s.slotTarget[h.slot := 0],
       slotDetour := s.slotDetour[h.slot := 0], threads := Retired(s.threads, a, |s.log|))
  }

  /** Removing what was just armed gives back slots, memory and hooks; the ring and the log remember it. */
  lemma RemoveUndoesArm(s: State, a: Addr, d: Addr, f: nat)
    requires Shape(s) && f < MAX_HOOKS && s.slotTarget[f] == 0 && s.slotDetour[f] == 0 && a in s.mem && a !in s.hooks
    ensures Removed(Armed(s, a, d, f), a)
         == s.(handler := true, ring := s.ring[s.retiredNext := a], retiredNext := (s.retiredNext + 1) % RETIRED_LEN,
               log := s.log + [a], threads := Retired(Reused(s.threads, a, f), a, |s.log|))
  {
    var r := Removed(Armed(s, a, d, f), a);
    assert r.slotTarget == s.slotTarget && r.slotDetour == s.slotDetour;
    assert r.mem == s.mem && r.hooks == s.hooks;
  }

  lemma LogRun(p: State -> bool, s: State, me: Tid, a: Addr) returns (s': State)
    requires Closed(p) && p(s) && Shape(s) && Enabled(s, StartRemove(me, a)) && a in s.mem
    ensures p(s') && Shape(s')
    ensures s' == s.(ring := s.ring[s.retiredNext := a], retiredNext := (s.retiredNext + 1) % RETIRED_LEN,
                     log := s.log + [a], threads := map t | t in s.threads :: OnRetire(s.threads[t], a, |s.log|),
                     writer := Restore(me, a, |s.log|))
  {
    s' := Next(p, s, StartRemove(me, a));
    s' := Next(p, s', WriterStep(0, true));
  }

  lemma UnpatchRun(p: State -> bool, s: State) returns (s': State)
    requires Closed(p) && p(s) && Shape(s) && s.writer.Restore? && s.hooks[s.writer.target].slot < MAX_HOOKS
    ensures p(s') && Shape(s')
    ensures var Restore(me, a, _) := s.writer;
            var h := s.hooks[a];
            s' == s.(mem := s.mem[a := h.saved], hooks := s.hooks - {a}, slotTarget := s.slotTarget[h.slot := 0],
                     threads := map t | t in s.threads :: OnClear(s.threads[t], a),
                     writer := ClearDetour(me, a, h.detour, h.slot))
  {
    s' := Next(p, s, WriterStep(0, true));
    s' := Next(p, s', WriterStep(0, true));
  }

  /** `remove` up to the point where only the handler is left to see to. */
  lemma RemoveStores(p: State -> bool, s: State, me: Tid, a: Addr) returns (s': State)
    requires Closed(p) && p(s) && Shape(s) && Enabled(s, StartRemove(me, a)) && a in s.mem
    requires s.hooks[a].slot < MAX_HOOKS
    ensures p(s') && Shape(s') && s' == Removed(s, a).(writer := IdleScan(me, 0))
  {
    s' := LogRun(p, s, me, a);
    s' := UnpatchRun(p, s');
    assert s'.threads == Retired(s.threads, a, |s.log|);
    s' := Next(p, s', WriterStep(0, true));
  }

  /** The same when the byte cannot be restored: a 0xCC that no hook owns stays behind. */
  function LeftBehind(s: State, a: Addr): State
    requires a in s.hooks && s.hooks[a].slot < |s.slotTarget| == |s.slotDetour| && s.retiredNext < |s.ring|
  {
    Removed(s, a).(mem := s.mem, code := s.code[a := INT3],
                   threads := map t | t in s.threads :: OnClear(OnForeign(OnRetire(s.threads[t], a, |s.log|), a), a))
  }

  lemma LeaveRun(p: State -> bool, s: State) returns (s': State)
    requires Closed(p) && p(s) && Shape(s) && s.writer.Restore? && s.hooks[s.writer.target].slot < MAX_HOOKS
    ensures p(s') && Shape(s')
    ensures var Restore(me, a, _) := s.writer;
            var h := s.hooks[a];
            s' == s.(code := s.code[a := INT3], hooks := s.hooks - {a}, slotTarget := s.slotTarget[h.slot := 0],
                     threads := map t | t in s.threads :: OnClear(OnForeign(s.threads[t], a), a),
                     writer := ClearDetour(me, a, h.detour, h.slot))
  {
    s' := Next(p, s, WriterStep(0, false));
    s' := Next(p, s', WriterStep(0, true));
  }

  lemma LeaveStores(p: State -> bool, s: State, me: Tid, a: Addr) returns (s': State)
    requires Closed(p) && p(s) && Shape(s) && Enabled(s, StartRemove(me, a)) && a in s.mem
    requires s.hooks[a].slot < MAX_HOOKS
    ensures p(s') && Shape(s') && s' == LeftBehind(s, a).(writer := IdleScan(me, 0))
  {
    s' := LogRun(p, s, me, a);
    s' := LeaveRun(p, s');
    assert s'.threads == LeftBehind(s, a).threads;
    s' := Next(p, s', WriterStep(0, true));
  }

  /** The scan for a live slot stops at the first one. */
  lemma {:induction false} LiveScanStops(p: State -> bool, s: State, live: nat) returns (s': State)
    requires Closed(p) && p(s) && Shape(s) && s.writer.IdleScan? && s.handler
    requires s.writer.i <= live < MAX_HOOKS && s.slotTarget[live] != 0
    ensures p(s') && Shape(s') && s' == s.(writer := Idle)
    decreases MAX_HOOKS - s.writer.i
  {
    var i := s.writer.i;
    s' := Next(p, s, WriterStep(0, true));
    if s.slotTarget[i] == 0 {
      s' := LiveScanStops(p, s', live);
    }
  }

  /** With another slot live, `remove` leaves the handler alone. */
  lemma RemoveRun(p: State -> bool, s: State, me: Tid, a: Addr, live: nat) returns (s': State)
    requires Closed(p) && p(s) && Shape(s) && Enabled(s, StartRemove(me, a)) && a in s.mem && s.handler
    requires s.hooks[a].slot < MAX_HOOKS && live < MAX_HOOKS && live != s.hooks[a].slot && s.slotTarget[live] != 0
    ensures p(s') && Shape(s') && s' == Removed(s, a)
  {
    s' := RemoveStores(p, s, me, a);
    s' := LiveScanStops(p, s', live);
  }

  // ----------------------------------------------------------------- release

  lemma {:induction false} IdleScanRun(p: State -> bool, s: State) returns (s': State)
    requires Closed(p) && p(s) && Shape(s) && s.writer.IdleScan? && s.handler && AllSlotsFree(s)
    ensures p(s') && Shape(s') && s' == s.(writer := Snapshot(s.writer.me, 0))
    decreases MAX_HOOKS - s.writer.i
  {
    var i := s.writer.i;
    s' := Next(p, s, WriterStep(0, true));
    if i < MAX_HOOKS {
      s' := IdleScanRun(p, s');
    }
  }

  lemma {:induction false} SuspendRun(p: State -> bool, s: State) returns (s': State)
    requires Closed(p) && p(s) && Shape(s) && s.writer.Suspend? && !s.writer.inFlight
    requires s.writer.todo <= s.threads.Keys
    ensures p(s') && Shape(s')
    ensures var held := s.writer.todo + s.writer.held;
            s' == s.(writer := Inspect(s.writer.me, s.writer.attempt, held, held))
    decreases |s.writer.todo|
  {
    if s.writer.todo == {} {
      s' := Next(p, s, WriterStep(0, true));
      assert s.writer.todo + s.writer.held == s.writer.held;
    } else {
      var t :| t in s.writer.todo;
      s' := Next(p, s, WriterStep(t, true));
      assert s.writer.todo + s.writer.held == s'.writer.todo + s'.writer.held;
      s' := SuspendRun(p, s');
    }
  }

  lemma {:induction false} InspectRun(p: State -> bool, s: State) returns (s': State)
    requires Closed(p) && p(s) && Shape(s) && s.writer.Inspect? && s.writer.todo <= s.threads.Keys
    requires forall t :: t in s.writer.todo ==> MayLookIdle(s, t)
    ensures p(s') && Shape(s')
    ensures s' == s.(writer := Thaw(s.writer.me, s.writer.attempt, s.writer.held, false))
    decreases |s.writer.todo|
  {
    if s.writer.todo == {} {
      s' := Next(p, s, WriterStep(0, true));
    } else {
      var t :| t in s.writer.todo;
      s' := Next(p, s, WriterStep(t, true));
      s' := InspectRun(p, s');
    }
  }

  /** No thread looks as if it were dispatching a trap at a retired address. */
  predicate AllLookIdle(s: State, me: Tid) {
    forall t :: t in s.threads && t != me ==> MayLookIdle(s, t)
  }

  /** One check that finds nothing in flight, */
  lemma CheckRun(p: State -> bool, s: State) returns (s': State)
    requires Closed(p) && p(s) && Shape(s) && s.writer.Snapshot? && AllLookIdle(s, s.writer.me)
    ensures p(s') && Shape(s') && s' == s.(writer := Unregister(s.writer.me))
  {
    s' := Next(p, s, WriterStep(0, true));
    s' := SuspendRun(p, s');
    s' := InspectRun(p, s');
    s' := Next(p, s', WriterStep(0, true));
  }

  /** and the handler is gone. */
  lemma UnregisterRun(p: State -> bool, s: State) returns (s': State)
    requires Closed(p) && p(s) && Shape(s) && s.writer.Snapshot? && AllLookIdle(s, s.writer.me)
    ensures p(s') && Shape(s')
    ensures s' == s.(handler := false, log := [], writer := Wipe(s.writer.me, 0))
  {
    s' := CheckRun(p, s);
    s' := Next(p, s', WriterStep(0, true));
  }

  lemma {:induction false} WipeRun(p: State -> bool, s: State) returns (s': State)
    requires Closed(p) && p(s) && Shape(s) && s.writer.Wipe?
    requires forall x :: 0 <= x < s.writer.j ==> s.ring[x] == 0
    ensures p(s') && Shape(s') && s' == s.(ring := EmptyRing(), retiredNext := 0, writer := Idle)
    decreases RETIRED_LEN - s.writer.j
  {
    var j := s.writer.j;
    s' := Next(p, s, WriterStep(0, true));
    if j < RETIRED_LEN {
      s' := WipeRun(p, s');
    } else {
      assert s.ring == EmptyRing();
    }
  }

  /** The state after the idle handler was released. */
  function Released(s: State): State {
    s.(handler := false, log := [], ring := EmptyRing(), retiredNext := 0, writer := Idle)
  }

  lemma ReleaseRun(p: State -> bool, s: State) returns (s': State)
    requires Closed(p) && p(s) && Shape(s) && s.writer.IdleScan? && s.handler
    requires AllSlotsFree(s) && AllLookIdle(s, s.writer.me)
    ensures p(s') && Shape(s') && s' == Released(s)
  {
    s' := IdleScanRun(p, s);
    s' := UnregisterRun(p, s');
    s' := WipeRun(p, s');
  }

  /** While some other thread cannot be ruled out, all five checks fail and the handler stays. */
  lemma {:induction false} BusyRun(p: State -> bool, s: State, t: Tid) returns (s': State)
    requires Closed(p) && p(s) && Shape(s) && s.writer.Snapshot? && s.writer.attempt < RELEASE_ATTEMPTS
    requires t in s.threads && t != s.writer.me
    ensures p(s') && Shape(s') && s' == s.(writer := Idle)
    decreases RELEASE_ATTEMPTS - s.writer.attempt
  {
    s' := Next(p, s, WriterStep(0, true));
    s' := SuspendRun(p, s');
    s' := Next(p, s', WriterStep(t, false));
    s' := Next(p, s', WriterStep(0, true));
    if s.writer.attempt + 1 < RELEASE_ATTEMPTS {
      s' := BusyRun(p, s', t);
    }
  }

  // ----------------------------------------------------------------- handler

  /** A handler whose address is in no slot scans to the end. */
  lemma {:induction false} ScanFindsNothing(p: State -> bool, s: State, t: Tid) returns (s': State)
    requires Closed(p) && p(s) && Shape(s) && Live(s, t)
    requires s.threads[t].Trapped? && s.threads[t].pc.LoadTarget? && Unused(s, s.threads[t].addr)
    ensures p(s') && Shape(s')
    ensures s' == s.(threads := s.threads[t := s.threads[t].(pc := LoadTarget(MAX_HOOKS, s.threads[t].pc.rescan))])
    decreases MAX_HOOKS - s.threads[t].pc.i
  {
    if s.threads[t].pc.i == MAX_HOOKS {
      s' := s;
      assert s.threads[t := s.threads[t]] == s.threads;
    } else {
      var s1 := Next(p, s, Handle(t));
      s' := ScanFindsNothing(p, s1, t);
      assert s'.threads == s.threads[t := s'.threads[t]];
    }
  }

  /** A handler whose address is not in the ring passes the trap on. */
  lemma {:induction false} RingFindsNothing(p: State -> bool, s: State, t: Tid) returns (s': State)
    requires Closed(p) && p(s) && Shape(s) && Live(s, t)
    requires s.threads[t].Trapped? && s.threads[t].pc.LoadRetired? && s.threads[t].addr !in s.ring
    ensures p(s') && Shape(s')
    ensures s' == s.(threads := s.threads[t := s.threads[t].(pc := Answered(PassedOn))])
    decreases RETIRED_LEN - s.threads[t].pc.j
  {
    var j := s.threads[t].pc.j;
    s' := Next(p, s, Handle(t));
    if j < RETIRED_LEN {
      s' := RingFindsNothing(p, s', t);
      assert s'.threads == s.threads[t := s'.threads[t]];
    }
  }

  /** A handler that finds its address in no slot and not in the ring passes the trap on. */
  lemma FindsNothing(p: State -> bool, s: State, t: Tid) returns (s': State)
    requires Closed(p) && p(s) && Shape(s) && Live(s, t) && s.handler
    requires s.threads[t].Trapped? && s.threads[t].pc == Entry
    requires Unused(s, s.threads[t].addr) && s.threads[t].addr !in s.ring
    ensures p(s') && Shape(s')
    ensures s' == s.(threads := s.threads[t := s.threads[t].(pc := Answered(PassedOn))])
  {
    s' := Next(p, s, Handle(t));
    s' := ScanFindsNothing(p, s', t);
    s' := Next(p, s', Handle(t));
    s' := RingFindsNothing(p, s', t);
    assert s'.threads == s.threads[t := s'.threads[t]];
  }
}
