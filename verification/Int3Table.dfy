/**
 The INT3 slot table as the program holds it: two fixed arrays of slots, a ring of
 retired targets, the handler registration and the patched bytes, changed in place by
 `arm`, `remove` and `release_idle_handler` and read by the handler.

 The methods run one at a time, under the manager lock; what their interleaving with
 trapped threads can do is the subject of `Int3Protocol`.
 */
module Int3Table {
  import opened Options
  import opened Int3Protocol

  datatype Error = AlreadyHooked | NoFreeSlot | HandlerRegistrationFailed | PatchFailed

  datatype Result<+T> = Ok(value: T) | Err(error: Error)

  /** `Int3Hook`: what the caller of `arm` owns. */
  datatype Owned = Owned(target: Addr, detour: Addr, saved: int, slot: nat)

  /** Everything the table holds, as a value. */
  datatype Contents = Contents(
    targets: seq<Addr>,
    detours: seq<Addr>,
    ring: seq<Addr>,
    next: nat,
    handler: bool,
    mem: map<Addr, int>,
    live: map<Addr, Owned>)

  /** With hook `h` armed. */
  function WithHook(c: Contents, h: Owned): Contents
    requires h.slot < |c.targets| == |c.detours|
  {
    c.(targets := c.targets[h.slot := h.target], detours := c.detours[h.slot := h.detour], handler := true,
       mem := c.mem[h.target := INT3], live := c.live[h.target := h])
  }

  /** With the publication in slot `f` taken back: whatever detour it held before is gone too. */
  function RolledBack(c: Contents, f: nat): Contents
    requires f < |c.detours|
  {
    c.(detours := c.detours[f := 0], handler := true)
  }

  /** With hook `h` forgotten, after its target came to read `b`. */
  function WithoutImage(c: Contents, h: Owned, b: int): Contents
    requires h.slot < |c.targets|
  {
    c.(targets := c.targets[h.slot := 0], mem := c.mem[h.target := b], live := c.live - {h.target})
  }

  /** With the handler released and the ring wiped, if no hook is left and a check was clear. */
  function WithoutHandler(c: Contents, clear: bool): Contents {
    if c.handler && c.live == map[] && clear then c.(handler := false, ring := EmptyRing(), next := 0) else c
  }

  /** A publication in the first free slot was taken back, and the handler seen to. */
  ghost predicate TakenBack(c: Contents, c': Contents, clear: bool) {
    exists f: nat :: FirstFree(c.targets, f) && f < |c.detours| && c' == WithoutHandler(RolledBack(c, f), clear)
  }

  /** With hook `h` removed and its target retired; `writes`: its byte could be restored. */
  function WithoutHook(c: Contents, h: Owned, writes: bool): Contents
    requires h.slot < |c.targets| == |c.detours| && c.next < |c.ring|
  {
    c.(targets := c.targets[h.slot := 0], detours := c.detours[h.slot := 0], ring := c.ring[c.next := h.target],
       next := (c.next + 1) % RETIRED_LEN, mem := if writes then c.mem[h.target := h.saved] else c.mem,
       live := c.live - {h.target})
  }

  /** One of the checks of a release finds nothing in flight. */
  predicate Clear(inFlight: nat -> bool) {
    exists k: nat :: k < RELEASE_ATTEMPTS && !inFlight(k)
  }

  ghost predicate HasFree(targets: seq<Addr>) {
    exists f: nat :: FirstFree(targets, f)
  }

  /** Slot `i` holds nothing, or the hook that owns it. */
  predicate SlotOk(target: Addr, detour: Addr, i: nat, live: map<Addr, Owned>) {
    target != 0 ==> target in live && live[target].slot == i && live[target].detour == detour && detour != 0
  }

  ghost predicate SlotsOk(targets: seq<Addr>, detours: seq<Addr>, live: map<Addr, Owned>) {
    && |targets| == |detours|
    && (forall i :: 0 <= i < |targets| ==> SlotOk(targets[i], detours[i], i, live))
    && (forall a :: a in live ==>
          a != 0 && live[a].target == a && live[a].slot < |targets| && targets[live[a].slot] == a)
  }

  /** Memory reads as the code with 0xCC at exactly the live targets, whose bytes their hooks have saved. */
  ghost predicate PatchedOk(mem: map<Addr, int>, code: map<Addr, int>, live: map<Addr, Owned>) {
    && mem.Keys == code.Keys
    && (forall a :: a in live ==> a in code && live[a].saved == code[a])
    && (forall a :: a in mem ==> mem[a] == if a in live then INT3 else code[a])
  }

  lemma SlotsAfterArm(targets: seq<Addr>, detours: seq<Addr>, live: map<Addr, Owned>, h: Owned)
    requires SlotsOk(targets, detours, live) && h.target !in live && h.target != 0 && h.detour != 0
    requires h.slot < |targets| && targets[h.slot] == 0
    ensures SlotsOk(targets[h.slot := h.target], detours[h.slot := h.detour], live[h.target := h])
  {
  }

  lemma SlotsAfterRemove(targets: seq<Addr>, detours: seq<Addr>, live: map<Addr, Owned>, h: Owned)
    requires SlotsOk(targets, detours, live) && h.target in live && live[h.target] == h
    ensures SlotsOk(targets[h.slot := 0], detours[h.slot := 0], live - {h.target})
  {
  }

  lemma SlotsAfterUndo(targets: seq<Addr>, detours: seq<Addr>, live: map<Addr, Owned>, slot: nat)
    requires SlotsOk(targets, detours, live) && slot < |targets| && targets[slot] == 0
    ensures SlotsOk(targets, detours[slot := 0], live)
  {
  }

  lemma SlotsAfterForget(targets: seq<Addr>, detours: seq<Addr>, live: map<Addr, Owned>, h: Owned)
    requires SlotsOk(targets, detours, live) && h.target in live && live[h.target] == h
    ensures SlotsOk(targets[h.slot := 0], detours, live - {h.target})
  {
  }

  lemma PatchedAfterForget(mem: map<Addr, int>, code: map<Addr, int>, live: map<Addr, Owned>, a: Addr, b: int)
    requires PatchedOk(mem, code, live) && a in live
    ensures PatchedOk(mem[a := b], code[a := b], live - {a})
  {
  }

  lemma PatchedAfterArm(mem: map<Addr, int>, code: map<Addr, int>, live: map<Addr, Owned>, h: Owned)
    requires PatchedOk(mem, code, live) && h.target in mem && h.target !in live && h.saved == mem[h.target]
    ensures PatchedOk(mem[h.target := INT3], code, live[h.target := h])
  {
  }

  lemma PatchedAfterRemove(mem: map<Addr, int>, code: map<Addr, int>, live: map<Addr, Owned>, h: Owned)
    requires PatchedOk(mem, code, live) && h.target in live && live[h.target] == h
    ensures PatchedOk(mem[h.target := h.saved], code, live - {h.target})
    ensures PatchedOk(mem, code[h.target := INT3], live - {h.target})
  {
  }

  lemma NoSlotNoHook(targets: seq<Addr>, detours: seq<Addr>, live: map<Addr, Owned>, a: Addr)
    requires SlotsOk(targets, detours, live) && forall i :: 0 <= i < |targets| ==> targets[i] != a
    ensures a !in live
  {
  }

  lemma EmptySlotsNoHooks(targets: seq<Addr>, detours: seq<Addr>, live: map<Addr, Owned>)
    requires SlotsOk(targets, detours, live) && forall i :: 0 <= i < |targets| ==> targets[i] == 0
    ensures live == map[]
  {
    forall a ensures a !in live {
      if a in live {
        NoSlotNoHook(targets, detours, live, a);
      }
    }
  }

  function AnswerOf(detour: Option<Addr>): Verdict {
    match detour
    case Some(d) => ToDetour(d)
    case None => PassedOn
  }

  class Table {
    const slotTarget: array<Addr>
    const slotDetour: array<Addr>
    const retired: array<Addr>
    var retiredNext: nat
    var handler: bool
    var mem: map<Addr, int>
    /** The code as it would read without hooks, and the hooks callers hold. */
    ghost var code: map<Addr, int>
    ghost var live: map<Addr, Owned>

    ghost predicate Valid()
      reads this, slotTarget, slotDetour
    {
      && slotTarget != slotDetour && slotTarget != retired && slotDetour != retired
      && slotTarget.Length == slotDetour.Length == MAX_HOOKS && retired.Length == RETIRED_LEN
      && retiredNext < RETIRED_LEN
      && SlotsOk(slotTarget[..], slotDetour[..], live)
      && PatchedOk(mem, code, live)
      && (live != map[] ==> handler)
    }

    ghost function Now(): Contents
      reads this, slotTarget, slotDetour, retired
    {
      Contents(slotTarget[..], slotDetour[..], retired[..], retiredNext, handler, mem, live)
    }

    constructor (mem: map<Addr, int>)
      ensures Valid() && fresh(slotTarget) && fresh(slotDetour) && fresh(retired)
      ensures code == mem
      ensures Now() == Contents(seq(MAX_HOOKS, _ => 0), seq(MAX_HOOKS, _ => 0), EmptyRing(), 0, false, mem, map[])
    {
      slotTarget := new Addr[MAX_HOOKS](_ => 0);
      slotDetour := new Addr[MAX_HOOKS](_ => 0);
      retired := new Addr[RETIRED_LEN](_ => 0);
      retiredNext, handler := 0, false;
      this.mem, code, live := mem, mem, map[];
      new;
      assert slotTarget[..] == seq(MAX_HOOKS, _ => 0) && slotDetour[..] == seq(MAX_HOOKS, _ => 0);
      assert retired[..] == EmptyRing();
    }

    /** The first slot that is free, and whether some slot has `target`. */
    method Scan(target: Addr) returns (hooked: bool, free: Option<nat>)
      requires Valid() && target != 0
      ensures hooked <==> target in live
      ensures !hooked ==> if free.Some? then FirstFree(slotTarget[..], free.value) else !HasFree(slotTarget[..])
    {
      hooked, free := false, None;
      for i := 0 to MAX_HOOKS
        invariant forall k :: 0 <= k < i ==> slotTarget[k] != target
        invariant free.None? ==> forall k :: 0 <= k < i ==> slotTarget[k] != 0
        invariant free.Some? ==> free.value < i && slotTarget[free.value] == 0
        invariant free.Some? ==> forall k :: 0 <= k < free.value ==> slotTarget[k] != 0
      {
        var occupied := slotTarget[i];
        if occupied == target {
          assert SlotOk(slotTarget[..][i], slotDetour[..][i], i, live);
          return true, free;
        }
        if occupied == 0 && free.None? {
          free := Some(i);
        }
      }
      NoSlotNoHook(slotTarget[..], slotDetour[..], live, target);
    }

    /** `find_detour`: the detour of the live hook at `addr`. */
    method FindDetour(addr: Addr) returns (r: Option<Addr>)
      requires Valid() && addr != 0
      ensures r == if addr in live then Some(live[addr].detour) else None
    {
      for i := 0 to MAX_HOOKS
        invariant forall k :: 0 <= k < i ==> slotTarget[k] != addr
      {
        if slotTarget[i] == addr {
          assert SlotOk(slotTarget[..][i], slotDetour[..][i], i, live);
          return Some(slotDetour[i]);
        }
      }
      NoSlotNoHook(slotTarget[..], slotDetour[..], live, addr);
      r := None;
    }

    method IsRetired(addr: Addr) returns (yes: bool)
      requires retired.Length == RETIRED_LEN
      ensures yes <==> exists k :: 0 <= k < RETIRED_LEN && retired[k] == addr
    {
      yes := false;
      for i := 0 to RETIRED_LEN
        invariant forall k :: 0 <= k < i ==> retired[k] != addr
      {
        if retired[i] == addr {
          return true;
        }
      }
    }

    /** `int3_handler` with nothing running beside it. */
    method Handle(addr: Addr) returns (v: Verdict)
      requires Valid() && addr in mem
      ensures addr != 0 && addr in live ==> v == ToDetour(live[addr].detour)
      ensures addr == 0 || addr !in live ==>
                v == if addr != 0 && code[addr] != INT3 && (exists k :: 0 <= k < RETIRED_LEN && retired[k] == addr)
                     then Rerun(code[addr]) else PassedOn
    {
      if addr == 0 {
        return PassedOn;
      }
      var detour := FindDetour(addr);
      if detour.Some? {
        return ToDetour(detour.value);
      }
      var known := IsRetired(addr);
      if known {
        var b := mem[addr];
        if b != INT3 {
          return Rerun(b);
        }
        detour := FindDetour(addr);
      }
      v := AnswerOf(detour);
    }

    /**
     `arm`. `blocked`: an inline patch covers the target; `registers` and `writes`: the
     handler registration and the byte write succeed. Every failure leaves memory, slots
     and hooks as they were.
     */
    method Arm(target: Addr, detour: Addr, blocked: bool, registers: bool, writes: bool, inFlight: nat -> bool)
      returns (r: Result<Owned>)
      requires Valid() && target != 0 && detour != 0
      modifies this, slotTarget, slotDetour, retired
      ensures Valid() && code == old(code)
      ensures r.Err? ==> live == old(live) && mem == old(mem)
      ensures r.Ok? ==> r.value.target == target && r.value.detour == detour
      ensures r.Ok? ==> live == old(live)[target := r.value] && handler
      ensures r.Ok? ==> mem == old(mem)[target := INT3] && r.value.saved == old(mem)[target]
      ensures r.Ok? <==>
                && !blocked && target !in old(live) && HasFree(old(slotTarget[..]))
                && (old(handler) || registers) && writes && target in old(mem)
      ensures r == Err(AlreadyHooked) <==> blocked || target in old(live)
      ensures r == Err(NoFreeSlot) <==>
                !blocked && target !in old(live) && !HasFree(old(slotTarget[..]))
      ensures r == Err(HandlerRegistrationFailed) <==>
                && !blocked && target !in old(live) && HasFree(old(slotTarget[..]))
                && !old(handler) && !registers
      ensures r.Ok? ==> FirstFree(old(slotTarget[..]), r.value.slot) && Now() == WithHook(old(Now()), r.value)
      ensures r.Err? && r.error != PatchFailed ==> Now() == old(Now())
      ensures r == Err(PatchFailed) ==> TakenBack(old(Now()), Now(), Clear(inFlight))
    {
      if blocked {
        return Err(AlreadyHooked);
      }
      var hooked, free := Scan(target);
      if hooked {
        return Err(AlreadyHooked);
      }
      if free.None? {
        return Err(NoFreeSlot);
      }
      if !handler {
        if !registers {
          return Err(HandlerRegistrationFailed);
        }
        handler := true;
      }
      var patched := Patch(target, detour, free.value, writes);
      if patched.Some? {
        return Ok(patched.value);
      }
      assert Now() == RolledBack(old(Now()), free.value);
      Release(inFlight);
      r := Err(PatchFailed);
    }

    /** The two slot stores and the byte write of `arm`, taken back if the write fails. */
    method Patch(target: Addr, detour: Addr, slot: nat, writes: bool) returns (r: Option<Owned>)
      requires Valid() && handler && target != 0 && detour != 0 && target !in live
      requires slot < MAX_HOOKS && slotTarget[slot] == 0
      modifies this`mem, this`live, slotTarget, slotDetour
      ensures Valid()
      ensures r.Some? <==> writes && target in old(mem)
      ensures r.None? ==> live == old(live) && mem == old(mem)
      ensures r.Some? ==> r.value == Owned(target, detour, old(mem)[target], slot)
      ensures r.Some? ==> mem == old(mem)[target := INT3] && live == old(live)[target := r.value]
      ensures Now() == if r.Some? then WithHook(old(Now()), r.value) else RolledBack(old(Now()), slot)
    {
      ghost var targets, detours := slotTarget[..], slotDetour[..];
      slotDetour[slot] := detour;
      slotTarget[slot] := target;
      if writes && target in mem {
        var h := Owned(target, detour, mem[target], slot);
        SlotsAfterArm(targets, detours, live, h);
        PatchedAfterArm(mem, code, live, h);
        mem := mem[target := INT3];
        live := live[target := h];
        assert slotTarget[..] == targets[slot := target] && slotDetour[..] == detours[slot := detour];
        return Some(h);
      }
      slotTarget[slot] := 0;
      slotDetour[slot] := 0;
      SlotsAfterUndo(targets, detours, live, slot);
      assert slotTarget[..] == targets && slotDetour[..] == detours[slot := 0];
      r := None;
    }

    /** The restoring write and the two slot stores of `remove`. */
    method Unpatch(h: Owned, writes: bool)
      requires Valid() && h.target in live && live[h.target] == h
      modifies this`mem, this`code, this`live, slotTarget, slotDetour
      ensures Valid() && live == old(live) - {h.target}
      ensures writes ==> code == old(code) && mem == old(mem)[h.target := old(code)[h.target]]
      ensures !writes ==> code == old(code)[h.target := INT3] && mem == old(mem)
      ensures Now() == old(Now()).(targets := old(slotTarget[..])[h.slot := 0],
                detours := old(slotDetour[..])[h.slot := 0], mem := mem, live := live)
    {
      ghost var targets, detours := slotTarget[..], slotDetour[..];
      SlotsAfterRemove(targets, detours, live, h);
      PatchedAfterRemove(mem, code, live, h);
      if writes {
        mem := mem[h.target := h.saved];
      } else {
        code := code[h.target := INT3];
      }
      slotTarget[h.slot] := 0;
      slotDetour[h.slot] := 0;
      live := live - {h.target};
      assert slotTarget[..] == targets[h.slot := 0] && slotDetour[..] == detours[h.slot := 0];
    }

    /**
     `remove` of a hook its owner still holds; `writes`: the restoring write succeeds. The
     target is in the ring for as long as the handler may still see a trap of it.
     */
    method Remove(h: Owned, writes: bool, inFlight: nat -> bool)
      requires Valid() && h.target in live && live[h.target] == h
      modifies this, slotTarget, slotDetour, retired
      ensures Valid() && live == old(live) - {h.target}
      ensures writes ==> code == old(code) && mem == old(mem)[h.target := old(code)[h.target]]
      ensures !writes ==> code == old(code)[h.target := INT3] && mem == old(mem)
      ensures handler ==> retired[old(retiredNext)] == h.target
      ensures Now() == WithoutHandler(WithoutHook(old(Now()), h, writes), Clear(inFlight))
    {
      Take(h, writes);
      ghost var ring := retired[..];
      Release(inFlight);
      assert handler ==> retired[..][old(retiredNext)] == ring[old(retiredNext)];
    }

    /** `remove` up to the release of the handler. */
    method Take(h: Owned, writes: bool)
      requires Valid() && h.target in live && live[h.target] == h
      modifies this`retiredNext, this`mem, this`code, this`live, slotTarget, slotDetour, retired
      ensures Valid() && live == old(live) - {h.target}
      ensures writes ==> code == old(code) && mem == old(mem)[h.target := old(code)[h.target]]
      ensures !writes ==> code == old(code)[h.target := INT3] && mem == old(mem)
      ensures retired[..] == old(retired[..])[old(retiredNext) := h.target]
      ensures Now() == WithoutHook(old(Now()), h, writes)
    {
      var idx := retiredNext;
      retired[idx] := h.target;
      retiredNext := (idx + 1) % RETIRED_LEN;
      assert retired[..] == old(retired[..])[idx := h.target];
      Unpatch(h, writes);
    }

    /**
     `forget`: the image that held the target is gone and the address reads `b`. Only the
     slot's target is cleared; nothing is retired and no handler released.
     */
    method Forget(h: Owned, b: int)
      requires Valid() && h.target in live && live[h.target] == h
      modifies this`mem, this`code, this`live, slotTarget
      ensures Valid() && live == old(live) - {h.target}
      ensures Now() == WithoutImage(old(Now()), h, b) && code == old(code)[h.target := b]
    {
      ghost var targets, detours := slotTarget[..], slotDetour[..];
      SlotsAfterForget(targets, detours, live, h);
      PatchedAfterForget(mem, code, live, h.target, b);
      mem, code, live := mem[h.target := b], code[h.target := b], live - {h.target};
      slotTarget[h.slot] := 0;
      assert slotTarget[..] == targets[h.slot := 0] && slotDetour[..] == detours;
    }

    /**
     `release_idle_handler`; `inFlight(k)` is what the k-th check finds. The handler goes
     only when no slot is armed and some check found no trap in flight, and then the ring
     is wiped.
     */
    method Release(inFlight: nat -> bool)
      requires Valid()
      modifies this`handler, this`retiredNext, retired
      ensures Valid()
      ensures handler <==> old(handler) && (live != map[] || forall k :: 0 <= k < RELEASE_ATTEMPTS ==> inFlight(k))
      ensures handler || !old(handler) ==> retired[..] == old(retired[..]) && retiredNext == old(retiredNext)
      ensures old(handler) && !handler ==> retiredNext == 0 && forall k :: 0 <= k < RETIRED_LEN ==> retired[k] == 0
      ensures Now() == WithoutHandler(old(Now()), Clear(inFlight))
    {
      var idle := NoneArmed();
      if !handler || !idle {
        return;
      }
      var attempt := 0;
      while attempt < RELEASE_ATTEMPTS
        invariant 0 <= attempt <= RELEASE_ATTEMPTS
        invariant forall k :: 0 <= k < attempt ==> inFlight(k)
      {
        if !inFlight(attempt) {
          handler := false;
          WipeRetired();
          retiredNext := 0;
          assert retired[..] == EmptyRing();
          return;
        }
        attempt := attempt + 1;
      }
    }

    method NoneArmed() returns (idle: bool)
      requires Valid()
      ensures idle <==> live == map[]
    {
      for i := 0 to MAX_HOOKS
        invariant forall k :: 0 <= k < i ==> slotTarget[k] == 0
      {
        if slotTarget[i] != 0 {
          assert SlotOk(slotTarget[..][i], slotDetour[..][i], i, live);
          return false;
        }
      }
      idle := true;
      EmptySlotsNoHooks(slotTarget[..], slotDetour[..], live);
    }

    method WipeRetired()
      requires retired.Length == RETIRED_LEN
      modifies retired
      ensures forall k :: 0 <= k < RETIRED_LEN ==> retired[k] == 0
    {
      for i := 0 to RETIRED_LEN
        invariant forall k :: 0 <= k < i ==> retired[k] == 0
      {
        retired[i] := 0;
      }
    }
  }
}
