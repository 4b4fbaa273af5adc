/**
 What a hazard is, in terms of the step that brings it: no thread is marked with one for
 any other reason. So a trap of ours that is passed on was met, between the trap and the
 answer, by one of these steps.
 */
module Int3Hazards {
  import opened Options
  import opened Int3Protocol
  import opened Int3Safety

  /** The step `e` brings hazard `h` upon the trapped thread `t`. */
  predicate Befalls(s: State, e: Event, t: Tid, h: Hazard)
    requires t in s.threads && s.threads[t].Trapped?
  {
    var th := s.threads[t];
    match h
    case ForeignByte =>          // the write that restores its byte fails
      e.WriterStep? && s.writer.Restore? && s.writer.target == th.addr && !e.ok
    case Forgotten => e.Forget? && e.target == th.addr
    case SlotReused =>           // the slot it has matched gets the detour of another target
      && e.WriterStep? && s.writer.ArmDetour? && s.writer.target != th.addr
      && th.pc.LoadDetour? && th.pc.i == s.writer.slot
    case RingOverrun =>          // a removal that takes the place of its own in the ring
      e.WriterStep? && s.writer.Retire? && th.removal.Some? && |s.log| >= th.removal.value + RETIRED_LEN
    case UnhookedInWindow =>     // its slot is cleared while it scans for the second time
      && e.WriterStep? && s.writer.ClearTarget? && s.writer.target == th.addr
      && (th.pc.LoadTarget? || th.pc.LoadDetour?) && th.pc.rescan
  }

  predicate Traps(s: State, t: Tid) {
    t in s.threads && s.threads[t].Trapped?
  }

  lemma HazardsByRemoval(s: State, pick: Tid, ok: bool, t: Tid, h: Hazard)
    requires Shape(s) && WriterEnabled(s, pick, ok) && Traps(s, t)
    requires s.writer.Retire? || s.writer.Restore?
    ensures var s' := WriterNext(s, pick, ok);
            Traps(s', t) && (h in s'.threads[t].hazards <==>
                h in s.threads[t].hazards || Befalls(s, WriterStep(pick, ok), t, h))
  {
  }

  lemma HazardsBySlots(s: State, pick: Tid, ok: bool, t: Tid, h: Hazard)
    requires Shape(s) && WriterEnabled(s, pick, ok) && Traps(s, t)
    requires s.writer.ArmDetour? || s.writer.ClearTarget?
    ensures var s' := WriterNext(s, pick, ok);
            Traps(s', t) && (h in s'.threads[t].hazards <==>
                h in s.threads[t].hazards || Befalls(s, WriterStep(pick, ok), t, h))
  {
  }

  /** Only these operations of the lock holder touch the threads. */
  predicate Meddles(w: Writer) { w.ArmDetour? || w.Retire? || w.Restore? || w.ClearTarget? }

  lemma ThreadsUntouched(s: State, pick: Tid, ok: bool)
    requires Shape(s) && WriterEnabled(s, pick, ok) && !Meddles(s.writer)
    ensures WriterNext(s, pick, ok).threads == s.threads
  {
    match s.writer
    case ArmScan(_, _, _, _, _) => assert ScanForFree(s).threads == s.threads;
    case ArmRegister(_, _, _, _) => assert RegisterHandler(s, ok).threads == s.threads;
    case ArmWrite(_, _, _, _) => assert PatchByte(s, ok).threads == s.threads;
    case Wipe(_, _) => assert WipeRing(s).threads == s.threads;
    case _ =>
  }

  lemma HazardsByWriter(s: State, pick: Tid, ok: bool, t: Tid, h: Hazard)
    requires Shape(s) && WriterEnabled(s, pick, ok) && Traps(s, t)
    ensures var s' := WriterNext(s, pick, ok);
            Traps(s', t) && (h in s'.threads[t].hazards <==>
                h in s.threads[t].hazards || Befalls(s, WriterStep(pick, ok), t, h))
  {
    if s.writer.Retire? || s.writer.Restore? {
      HazardsByRemoval(s, pick, ok, t, h);
    } else if s.writer.ArmDetour? || s.writer.ClearTarget? {
      HazardsBySlots(s, pick, ok, t, h);
    } else {
      ThreadsUntouched(s, pick, ok);
    }
  }

  /** A trapped thread is marked with a hazard exactly by the step that brings it. */
  lemma HazardsAreMet(s: State, e: Event, t: Tid, h: Hazard)
    requires Shape(s) && Enabled(s, e) && Traps(s, t) && Traps(Apply(s, e), t)
    ensures h in Apply(s, e).threads[t].hazards <==> h in s.threads[t].hazards || Befalls(s, e, t, h)
  {
    if e.WriterStep? {
      HazardsByWriter(s, e.pick, e.ok, t, h);
    }
  }

  /** It starts with one exactly if the 0xCC was not the doing of a live hook. */
  lemma FreshTrapIsClean(s: State, t: Tid, a: Addr)
    requires Shape(s) && Enabled(s, Trap(t, a))
    ensures Traps(Apply(s, Trap(t, a)), t) && Apply(s, Trap(t, a)).threads[t].addr == a
    ensures Apply(s, Trap(t, a)).threads[t].hazards
         == if a in s.hooks && s.code[a] != INT3 then {} else {ForeignByte}
  {
  }

  /** The thread stays trapped over the run. */
  predicate StaysTrapped(s: State, es: seq<Event>, t: Tid)
    requires ValidRun(s, es)
    decreases |es|
  {
    Traps(s, t) && (es != [] ==> StaysTrapped(Apply(s, es[0]), es[1..], t))
  }

  /** Some step of the run brings a hazard upon it. */
  ghost predicate Befallen(s: State, es: seq<Event>, t: Tid)
    requires ValidRun(s, es) && StaysTrapped(s, es, t)
    decreases |es|
  {
    es != [] && ((exists h :: Befalls(s, es[0], t, h)) || Befallen(Apply(s, es[0]), es[1..], t))
  }

  lemma {:induction false} StaysClean(s: State, es: seq<Event>, t: Tid)
    requires Inv(s) && ValidRun(s, es) && StaysTrapped(s, es, t) && !Befallen(s, es, t) && s.threads[t].hazards == {}
    ensures Inv(Outcome(s, es)) && Traps(Outcome(s, es), t) && Outcome(s, es).threads[t].hazards == {}
    decreases |es|
  {
    if es != [] {
      KeptByEvent(s, es[0]);
      forall h ensures h !in Apply(s, es[0]).threads[t].hazards {
        HazardsAreMet(s, es[0], t, h);
      }
      StaysClean(Apply(s, es[0]), es[1..], t);
    }
  }

  /** A thread that trapped on our byte is passed on only if one of these steps came between. */
  lemma PassedOnHasCause(s: State, es: seq<Event>, t: Tid)
    requires Reachable(s) && ValidRun(s, es) && StaysTrapped(s, es, t) && s.threads[t].hazards == {}
    requires Traps(Outcome(s, es), t) && Outcome(s, es).threads[t].pc == Answered(PassedOn)
    ensures Befallen(s, es, t)
  {
    ReachableInv(s);
    if !Befallen(s, es, t) {
      StaysClean(s, es, t);
    }
  }
}
