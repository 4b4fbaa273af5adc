/**
 The unwind codes recorded beside the mid-hook prologue: applying those that the
 unwinder considers passed undoes exactly the instructions that have run.

 A code is a 16-bit slot, `UNWIND_CODE` of "x64 exception handling": the offset
 just past the instruction in the low byte, then four bits of operation and four
 of operand.
 */
module MidHookUnwind {
  import opened Options
  import opened StubMachine
  import opened StubCode
  import opened MidHookStub

  // --------------------------------------------------------------- recording

  const UWOP_PUSH_NONVOL := 0
  const UWOP_ALLOC_SMALL := 2
  const UWOP_SET_FPREG := 3

  function Alloc(bytes: nat): nat
    requires bytes >= 8
  {
    UWOP_ALLOC_SMALL + (bytes / 8 - 1) * 16
  }

  /** The operation byte recorded for an instruction of the prologue, if any. */
  function OpOf(i: Insn): Option<nat> {
    match i
    case LeaRsp(d) => if d <= -8 then Some(Alloc(-d)) else None
    case Push(r) => Some(UWOP_PUSH_NONVOL + r * 16)
    case Pushfq => Some(Alloc(8))
    case MovFromRsp(r) => if r == RBP then Some(UWOP_SET_FPREG) else None
    case _ => None
  }

  function Slot(offset: nat, op: nat): nat { op * 256 + offset }

  /** The offset just past the program `p`, which starts at `start`. */
  function End(start: nat, p: seq<Insn>): nat { start + Size(p) }

  /** (offset, operation) pairs in prologue order. */
  function Entries(start: nat, p: seq<Insn>): seq<(nat, nat)> {
    if p == [] then []
    else Entries(start, p[..|p| - 1])
         + match OpOf(p[|p| - 1]) { case Some(op) => [(End(start, p), op)] case None => [] }
  }

  /** The slots, last instruction first. */
  function Slots(start: nat, p: seq<Insn>): seq<nat> {
    if p == [] then []
    else (match OpOf(p[|p| - 1]) { case Some(op) => [Slot(End(start, p), op)] case None => [] })
         + Slots(start, p[..|p| - 1])
  }

  // --------------------------------------------------------------- unwinding

  datatype Frame = Frame(rsp: int, regs: seq<int>)

  /** What the unwinder does for one code; the frame register is rbp at offset 0. */
  function Undo(env: Env, m: Mem, slot: nat, u: Frame): (r: Frame)
    requires |u.regs| == 16
    ensures |r.regs| == 16
  {
    var op, info := slot / 256 % 16, slot / 4096 % 16;
    if op == UWOP_PUSH_NONVOL then Frame(u.rsp + 8, u.regs[info := env.read(m, u.rsp)])
    else if op == UWOP_ALLOC_SMALL then u.(rsp := u.rsp + info * 8 + 8)
    else if op == UWOP_SET_FPREG then u.(rsp := u.regs[RBP])
    else u
  }

  /** Applies, in order, the codes whose instruction lies before `at`. */
  function Unwind(env: Env, m: Mem, slots: seq<nat>, at: nat, u: Frame): (r: Frame)
    requires |u.regs| == 16
    ensures |r.regs| == 16
  {
    if slots == [] then u
    else Unwind(env, m, slots[1..], at, if slots[0] % 256 <= at then Undo(env, m, slots[0], u) else u)
  }

  // -------------------------------------------------- what a prologue leaves

  /** Bytes taken from the stack. */
  function Depth(p: seq<Insn>): int {
    if p == [] then 0
    else Depth(p[..|p| - 1]) + match p[|p| - 1] { case LeaRsp(d) => -d case Push(_) => 8 case Pushfq => 8 case _ => 0 }
  }

  /** The depth at which `r` was pushed, 0 if it was not. */
  function SavedAt(p: seq<Insn>, r: nat): int {
    if p == [] then 0
    else if p[|p| - 1].Push? && p[|p| - 1].r == r then Depth(p)
    else SavedAt(p[..|p| - 1], r)
  }

  /** Bytes at the bottom of the stack that the last allocation left for a store. */
  function Free(p: seq<Insn>): int {
    if p == [] then 0
    else match p[|p| - 1] { case LeaRsp(d) => -d case Push(_) => 0 case Pushfq => 0 case _ => Free(p[..|p| - 1]) }
  }

  predicate FrameSet(p: seq<Insn>) { p != [] && p[|p| - 1] == MovFromRsp(RBP) }

  /** An instruction a prologue may contain after `p`. */
  predicate Fits(p: seq<Insn>, i: Insn) {
    !FrameSet(p) &&
    match i
    case LeaRsp(d) => -128 <= d <= -8 && d % 8 == 0
    case Push(r) => SavedAt(p, r) == 0
    case Pushfq => true
    case Cld => true
    case ZeroTop => Free(p) >= 8
    case Stmxcsr => Free(p) >= 4
    case StoreXmm(_) => Free(p) >= 16
    case MovFromRsp(r) => SavedAt(p, r) > 0
    case _ => false
  }

  /** Stores go to what the last allocation left, and a register is saved before it is overwritten. */
  predicate Sound(p: seq<Insn>) {
    p == [] || (Sound(p[..|p| - 1]) && Fits(p[..|p| - 1], p[|p| - 1]))
  }

  /** `s` is reached from `e` by `p`: saved registers in place, the rest unchanged. */
  ghost predicate Laid(env: Env, p: seq<Insn>, e: State, s: State) {
    && Shape(e) && Shape(s)
    && s.rsp == e.rsp - Depth(p)
    && 0 <= Free(p) <= Depth(p)
    && (forall r :: 0 <= r < 16 ==> 0 <= SavedAt(p, r) <= Depth(p) - Free(p))
    && (forall r :: 0 <= r < 16 && SavedAt(p, r) > 0 ==> env.read(s.mem, e.rsp - SavedAt(p, r)) == e.regs[r])
    && (forall r :: 0 <= r < 16 && SavedAt(p, r) == 0 ==> s.regs[r] == e.regs[r])
    && SameFrom(env, e.mem, s.mem, e.rsp)
    && (FrameSet(p) ==> s.regs[RBP] == s.rsp)
  }

  lemma Snoc<T>(p: seq<T>, i: T)
    ensures (p + [i])[..|p + [i]| - 1] == p && (p + [i])[|p + [i]| - 1] == i && p + [i] != []
  {
  }

  lemma MeasuresSnoc(p: seq<Insn>, i: Insn)
    ensures Depth(p + [i]) == Depth(p) + match i { case LeaRsp(d) => -d case Push(_) => 8 case Pushfq => 8 case _ => 0 }
    ensures Free(p + [i]) == match i { case LeaRsp(d) => -d case Push(_) => 0 case Pushfq => 0 case _ => Free(p) }
    ensures forall r :: SavedAt(p + [i], r) == if i.Push? && i.r == r then Depth(p + [i]) else SavedAt(p, r)
    ensures FrameSet(p + [i]) <==> i == MovFromRsp(RBP)
    ensures Sound(p + [i]) <==> Sound(p) && Fits(p, i)
  {
    Snoc(p, i);
  }

  /** Writing only below the saved registers keeps them. */
  lemma LaidKept(env: Env, p: seq<Insn>, e: State, s: State, m: Mem, low: int)
    requires Laid(env, p, e, s) && SameFrom(env, s.mem, m, low) && low <= e.rsp - (Depth(p) - Free(p))
    ensures Laid(env, p, e, s.(mem := m))
  {
  }

  lemma LaidPush(env: Env, p: seq<Insn>, r: Reg, e: State, s: State)
    requires LawfulMemory(env) && Laid(env, p, e, s) && Fits(p, Push(r))
    ensures Laid(env, p + [Push(r)], e, Exec(env, Push(r), s))
  {
    MeasuresSnoc(p, Push(r));
    WriteLaws(env, s.mem, s.rsp - 8, s.regs[r]);
  }

  lemma LaidStore(env: Env, p: seq<Insn>, i: Insn, e: State, s: State)
    requires LawfulMemory(env) && Laid(env, p, e, s) && Fits(p, i)
    requires i.Pushfq? || i.ZeroTop? || i.Stmxcsr? || i.StoreXmm?
    ensures Laid(env, p + [i], e, Exec(env, i, s))
  {
    var m := Exec(env, i, s).mem;
    assert SameFrom(env, s.mem, m, e.rsp - (Depth(p) - Free(p))) by {
      match i {
        case Pushfq => WriteLaws(env, s.mem, s.rsp - 8, s.flags);
        case ZeroTop => WriteLaws(env, s.mem, s.rsp, 0);
        case StoreXmm(n) => WriteWideLaws(env, s.mem, s.rsp, s.xmm[n]);
        case _ =>
      }
    }
    LaidKept(env, p, e, s, m, e.rsp - (Depth(p) - Free(p)));
    MeasuresSnoc(p, i);
  }

  lemma LaidStep(env: Env, p: seq<Insn>, i: Insn, e: State, s: State)
    requires LawfulMemory(env) && Laid(env, p, e, s) && Fits(p, i)
    ensures Laid(env, p + [i], e, Exec(env, i, s))
  {
    if i.Push? {
      LaidPush(env, p, i.r, e, s);
    } else if i.Pushfq? || i.ZeroTop? || i.Stmxcsr? || i.StoreXmm? {
      LaidStore(env, p, i, e, s);
    } else {
      MeasuresSnoc(p, i);
    }
  }

  /** A sound prologue leaves what it should at each of its boundaries. */
  lemma {:induction false} SoundIsLaid(env: Env, p: seq<Insn>, e: State)
    requires LawfulMemory(env) && Shape(e) && Sound(p)
    ensures Laid(env, p, e, Run(env, p, e))
    decreases |p|
  {
    if p != [] {
      var front, i := p[..|p| - 1], p[|p| - 1];
      assert p == front + [i];
      SoundIsLaid(env, front, e);
      LaidStep(env, front, i, e, Run(env, front, e));
    }
  }

  // ----------------------------------------------------- undoing any prologue

  lemma {:induction false} SoundMeasures(p: seq<Insn>, r: nat)
    requires Sound(p)
    ensures 0 <= Free(p) <= Depth(p) && 0 <= SavedAt(p, r) <= Depth(p)
    decreases |p|
  {
    if p != [] {
      SoundMeasures(p[..|p| - 1], r);
    }
  }

  /** Registers as `p` saved them in `m` where it did, as they are where it did not. */
  ghost function Restored(env: Env, p: seq<Insn>, base: int, m: Mem, regs: seq<int>): seq<int>
    requires |regs| == 16
  {
    seq(16, r requires 0 <= r < 16 => if SavedAt(p, r) > 0 then env.read(m, base - SavedAt(p, r)) else regs[r])
  }

  lemma SlotFields(offset: nat, op: nat, info: nat)
    requires offset < 256 && op < 16 && info < 16
    ensures var slot := Slot(offset, op + info * 16);
            slot % 256 == offset && slot / 256 % 16 == op && slot / 4096 % 16 == info
  {
  }

  lemma RestoredSame(env: Env, p: seq<Insn>, q: seq<Insn>, base: int, m: Mem, regs: seq<int>)
    requires |regs| == 16 && forall r :: 0 <= r < 16 ==> SavedAt(q, r) == SavedAt(p, r)
    ensures Restored(env, p, base, m, regs) == Restored(env, q, base, m, regs)
  {
  }

  lemma RestoredPush(env: Env, p: seq<Insn>, r: Reg, base: int, m: Mem, regs: seq<int>)
    requires |regs| == 16 && Sound(p) && SavedAt(p, r) == 0
    ensures var v := env.read(m, base - Depth(p + [Push(r)]));
            Restored(env, p, base, m, regs[r := v]) == Restored(env, p + [Push(r)], base, m, regs)
  {
    MeasuresSnoc(p, Push(r));
    SoundMeasures(p, r);
  }

  /** The instruction taken back. */
  ghost function Reversed(env: Env, m: Mem, i: Insn, u: Frame): Frame
    requires |u.regs| == 16
  {
    match i
    case Push(r) => Frame(u.rsp + 8, u.regs[r := env.read(m, u.rsp)])
    case LeaRsp(d) => u.(rsp := u.rsp - d)
    case Pushfq => u.(rsp := u.rsp + 8)
    case MovFromRsp(_) => u.(rsp := u.regs[RBP])
    case _ => u
  }

  lemma UndoReverses(env: Env, m: Mem, p: seq<Insn>, i: Insn, offset: nat, u: Frame)
    requires Fits(p, i) && OpOf(i).Some? && offset < 256 && |u.regs| == 16
    ensures Undo(env, m, Slot(offset, OpOf(i).value), u) == Reversed(env, m, i, u)
  {
    match i
    case Push(r) => SlotFields(offset, UWOP_PUSH_NONVOL, r);
    case LeaRsp(d) => SlotFields(offset, UWOP_ALLOC_SMALL, -d / 8 - 1);
    case Pushfq => SlotFields(offset, UWOP_ALLOC_SMALL, 0);
    case MovFromRsp(_) => SlotFields(offset, UWOP_SET_FPREG, 0);
  }

  lemma ReversesOther(env: Env, m: Mem, p: seq<Insn>, i: Insn, base: int, u: Frame)
    requires Fits(p, i) && OpOf(i).Some? && !i.Push? && |u.regs| == 16
    requires (if i == MovFromRsp(RBP) then u.regs[RBP] else u.rsp) == base - Depth(p + [i])
    ensures var v := Reversed(env, m, i, u);
            && v.rsp == base - Depth(p)
            && Restored(env, p, base, m, v.regs) == Restored(env, p + [i], base, m, u.regs)
  {
    MeasuresSnoc(p, i);
    RestoredSame(env, p, p + [i], base, m, u.regs);
  }

  /** The code recorded for `i` undoes it. */
  lemma UndoesLast(env: Env, m: Mem, p: seq<Insn>, i: Insn, offset: nat, base: int, u: Frame)
    requires Sound(p) && Fits(p, i) && OpOf(i).Some? && offset < 256 && |u.regs| == 16
    requires (if i == MovFromRsp(RBP) then u.regs[RBP] else u.rsp) == base - Depth(p + [i])
    ensures var v := Undo(env, m, Slot(offset, OpOf(i).value), u);
            && v.rsp == base - Depth(p)
            && Restored(env, p, base, m, v.regs) == Restored(env, p + [i], base, m, u.regs)
  {
    UndoReverses(env, m, p, i, offset, u);
    if i.Push? {
      MeasuresSnoc(p, i);
      RestoredPush(env, p, i.r, base, m, u.regs);
    } else {
      ReversesOther(env, m, p, i, base, u);
    }
  }

  lemma SlotsSnoc(start: nat, p: seq<Insn>, i: Insn)
    ensures Slots(start, p + [i]) ==
            (if OpOf(i).Some? then [Slot(End(start, p + [i]), OpOf(i).value)] else []) + Slots(start, p)
    ensures End(start, p + [i]) == End(start, p) + Len(i) && Len(i) > 0
  {
    Snoc(p, i);
    EncodeLen(i);
  }

  lemma UnwindHead(env: Env, m: Mem, slot: nat, rest: seq<nat>, at: nat, u: Frame)
    requires |u.regs| == 16
    ensures Unwind(env, m, [slot] + rest, at, u)
         == Unwind(env, m, rest, at, if slot % 256 <= at then Undo(env, m, slot, u) else u)
  {
    assert ([slot] + rest)[1..] == rest;
  }

  /** The codes of a sound prologue take the stack back to its start and recover the saved registers. */
  lemma {:induction false} UnwindUndoes(env: Env, m: Mem, start: nat, p: seq<Insn>, at: nat, base: int, u: Frame)
    requires Sound(p) && End(start, p) < 256 && End(start, p) <= at && |u.regs| == 16
    requires (if FrameSet(p) then u.regs[RBP] else u.rsp) == base - Depth(p)
    ensures Unwind(env, m, Slots(start, p), at, u) == Frame(base, Restored(env, p, base, m, u.regs))
    decreases |p|
  {
    if p == [] {
      assert Restored(env, p, base, m, u.regs) == u.regs;
    } else {
      var front, i := p[..|p| - 1], p[|p| - 1];
      assert p == front + [i];
      UndoesSnoc(env, m, start, front, i, at, base, u);
      if OpOf(i).Some? {
        UnwindUndoes(env, m, start, front, at, base, Undo(env, m, Slot(End(start, p), OpOf(i).value), u));
      } else {
        UnwindUndoes(env, m, start, front, at, base, u);
      }
    }
  }

  lemma UndoesSnoc(env: Env, m: Mem, start: nat, p: seq<Insn>, i: Insn, at: nat, base: int, u: Frame)
    requires Sound(p) && Fits(p, i) && End(start, p + [i]) < 256 && End(start, p + [i]) <= at && |u.regs| == 16
    requires (if FrameSet(p + [i]) then u.regs[RBP] else u.rsp) == base - Depth(p + [i])
    ensures End(start, p) <= End(start, p + [i])
    ensures var v := if OpOf(i).Some? then Undo(env, m, Slot(End(start, p + [i]), OpOf(i).value), u) else u;
            && Unwind(env, m, Slots(start, p + [i]), at, u) == Unwind(env, m, Slots(start, p), at, v)
            && v.rsp == base - Depth(p)
            && Restored(env, p, base, m, v.regs) == Restored(env, p + [i], base, m, u.regs)
  {
    var offset := End(start, p + [i]);
    SlotsSnoc(start, p, i);
    MeasuresSnoc(p, i);
    if OpOf(i).Some? {
      var op := OpOf(i).value;
      UndoesLast(env, m, p, i, offset, base, u);
      UnwindHead(env, m, Slot(offset, op), Slots(start, p), at, u);
      assert Slot(offset, op) % 256 == offset;
    } else {
      assert [] + Slots(start, p) == Slots(start, p);
    }
  }

  lemma UnwindSkipsLast(env: Env, m: Mem, start: nat, p: seq<Insn>, i: Insn, at: nat, u: Frame)
    requires End(start, p) >= at && End(start, p + [i]) < 256 && |u.regs| == 16
    ensures Unwind(env, m, Slots(start, p + [i]), at, u) == Unwind(env, m, Slots(start, p), at, u)
    ensures End(start, p + [i]) > at
  {
    SlotsSnoc(start, p, i);
    if OpOf(i).Some? {
      var slot := Slot(End(start, p + [i]), OpOf(i).value);
      assert slot % 256 == End(start, p + [i]);
      UnwindHead(env, m, slot, Slots(start, p), at, u);
    } else {
      assert [] + Slots(start, p) == Slots(start, p);
    }
  }

  /** Codes of instructions that have not run are passed over. */
  lemma {:induction false} UnwindSkips(env: Env, m: Mem, start: nat, p: seq<Insn>, q: seq<Insn>, u: Frame)
    requires End(start, p + q) < 256 && |u.regs| == 16
    ensures Unwind(env, m, Slots(start, p + q), End(start, p), u) == Unwind(env, m, Slots(start, p), End(start, p), u)
    ensures End(start, p) <= End(start, p + q)
    decreases |q|
  {
    if q == [] {
      assert p + q == p;
    } else {
      var front, i := q[..|q| - 1], q[|q| - 1];
      assert p + q == (p + front) + [i];
      SizeSnoc(p + front, i);
      UnwindSkips(env, m, start, p, front, u);
      UnwindSkipsLast(env, m, start, p + front, i, End(start, p), u);
    }
  }

  // ------------------------------------------------------ the stub's prologue

  lemma XmmIsSound(p: seq<Insn>, n: Lane)
    requires Sound(p) && !FrameSet(p)
    ensures var q := (p + [LeaRsp(-16)]) + [StoreXmm(n)];
            && Sound(q) && !FrameSet(q) && Depth(q) == Depth(p) + 16
            && forall r :: SavedAt(q, r) == SavedAt(p, r)
  {
    MeasuresSnoc(p, LeaRsp(-16));
    MeasuresSnoc(p + [LeaRsp(-16)], StoreXmm(n));
  }

  lemma Regroup2<T>(p: seq<T>, q: seq<T>, i: T, j: T)
    ensures p + (q + [i, j]) == ((p + q) + [i]) + [j]
  {
  }

  lemma {:induction false} XmmsAreSound(p: seq<Insn>, n: nat)
    requires Sound(p) && !FrameSet(p) && n <= 16
    ensures var q := p + SaveXmms(n);
            && Sound(q) && !FrameSet(q) && Depth(q) == Depth(p) + 16 * (16 - n)
            && forall r :: SavedAt(q, r) == SavedAt(p, r)
    decreases 16 - n
  {
    if n == 16 {
      assert p + SaveXmms(n) == p;
    } else {
      XmmsAreSound(p, n + 1);
      XmmIsSound(p + SaveXmms(n + 1), n);
      Regroup2(p, SaveXmms(n + 1), LeaRsp(-16), StoreXmm(n));
    }
  }

  ghost predicate PushesLaid(p: seq<Insn>, rs: seq<Reg>, q: seq<Insn>) {
    && Sound(q) && !FrameSet(q) && Depth(q) == Depth(p) + 8 * |rs|
    && (forall k :: 0 <= k < |rs| ==> SavedAt(q, rs[k]) == Depth(p) + 8 * k + 8)
    && (forall r: Reg :: r !in rs ==> SavedAt(q, r) == SavedAt(p, r))
  }

  lemma PushesLaidStep(p: seq<Insn>, rs: seq<Reg>, i: Reg, q: seq<Insn>)
    requires PushesLaid(p, rs, q) && i !in rs && SavedAt(p, i) == 0
    ensures PushesLaid(p, rs + [i], q + [Push(i)])
  {
    MeasuresSnoc(q, Push(i));
  }

  lemma {:induction false} PushesAreSound(p: seq<Insn>, rs: seq<Reg>)
    requires Sound(p) && !FrameSet(p) && Distinct(rs) && forall r: Reg :: SavedAt(p, r) == 0
    ensures PushesLaid(p, rs, p + PushAll(rs))
    decreases |rs|
  {
    if rs == [] {
      assert p + PushAll(rs) == p;
    } else {
      var front, i := rs[..|rs| - 1], rs[|rs| - 1];
      PushesAreSound(p, front);
      assert rs == front + [i];
      assert p + PushAll(rs) == (p + PushAll(front)) + [Push(i)];
      PushesLaidStep(p, front, i, p + PushAll(front));
    }
  }

  /** The prologue after the site slot is stored: the part the codes describe. */
  function FrameCode(): seq<Insn> { Reserve() + Xmms() + SaveMxcsr() + PushAll(SAVED_REGS) + SetFrame() }

  lemma Snoc2Is<T>(p: seq<T>, i: T, j: T)
    ensures p + [i, j] == (p + [i]) + [j]
  {
  }

  lemma ReserveIsSound()
    ensures var p := Reserve();
            Sound(p) && !FrameSet(p) && Depth(p) == 8 && forall r :: SavedAt(p, r) == 0
  {
    assert Reserve() == ([] + [LeaRsp(-8)]) + [ZeroTop];
    MeasuresSnoc([], LeaRsp(-8));
    MeasuresSnoc([] + [LeaRsp(-8)], ZeroTop);
  }

  lemma MxcsrIsSound(p: seq<Insn>)
    requires Sound(p) && !FrameSet(p)
    ensures var q := p + SaveMxcsr();
            && Sound(q) && !FrameSet(q) && Depth(q) == Depth(p) + 8
            && forall r :: SavedAt(q, r) == SavedAt(p, r)
  {
    Snoc2Is(p, LeaRsp(-8), Stmxcsr);
    MeasuresSnoc(p, LeaRsp(-8));
    MeasuresSnoc(p + [LeaRsp(-8)], Stmxcsr);
  }

  lemma SetFrameIsSound(p: seq<Insn>)
    requires Sound(p) && !FrameSet(p) && SavedAt(p, RCX) > 0 && SavedAt(p, RBP) > 0
    ensures var q := p + SetFrame();
            && Sound(q) && FrameSet(q) && Depth(q) == Depth(p) + 8
            && forall r :: SavedAt(q, r) == SavedAt(p, r)
  {
    var p1 := p + [Pushfq];
    var p2 := p1 + [Cld];
    var p3 := p2 + [MovFromRsp(RCX)];
    assert p + SetFrame() == p3 + [MovFromRsp(RBP)];
    MeasuresSnoc(p, Pushfq);
    MeasuresSnoc(p1, Cld);
    MeasuresSnoc(p2, MovFromRsp(RCX));
    MeasuresSnoc(p3, MovFromRsp(RBP));
  }

  lemma PushesFillContext(p: seq<Insn>, q: seq<Insn>)
    requires PushesLaid(p, SAVED_REGS, q) && Depth(p) == 272
    ensures forall r: Reg :: SavedAt(q, r) == 400 - FieldOf(r)
  {
    forall r: Reg ensures SavedAt(q, r) == 400 - FieldOf(r) {
      assert SavedAt(q, SAVED_REGS[PushIndex(r)]) == Depth(p) + 8 * PushIndex(r) + 8;
    }
  }

  lemma VectorsAreSound()
    ensures var p := Reserve() + Xmms() + SaveMxcsr();
            Sound(p) && !FrameSet(p) && Depth(p) == 272 && forall r: Reg :: SavedAt(p, r) == 0
  {
    ReserveIsSound();
    XmmsAreSound(Reserve(), 0);
    MxcsrIsSound(Reserve() + Xmms());
  }

  lemma PushesAndFrame(p: seq<Insn>)
    requires Sound(p) && !FrameSet(p) && Depth(p) == 272 && forall r: Reg :: SavedAt(p, r) == 0
    ensures var f := p + PushAll(SAVED_REGS) + SetFrame();
            Sound(f) && FrameSet(f) && Depth(f) == 400 && forall r: Reg :: SavedAt(f, r) == 400 - FieldOf(r)
  {
    var q := p + PushAll(SAVED_REGS);
    PushesAreSound(p, SAVED_REGS);
    PushesFillContext(p, q);
    SetFrameIsSound(q);
  }

  /** The stub's own prologue is sound, and saves each register where `HookContext` has its field. */
  lemma FrameCodeIsSound()
    ensures var f := FrameCode();
            Sound(f) && FrameSet(f) && Depth(f) == 400 && forall r: Reg :: SavedAt(f, r) == 400 - FieldOf(r)
  {
    VectorsAreSound();
    PushesAndFrame(Reserve() + Xmms() + SaveMxcsr());
  }
}
