/**
 Unwinding out of the mid-hook stub: from every instruction boundary the unwind
 data covers, the recorded codes lead back to the hooked site.
 */
module MidHookBoundary {
  import opened Options
  import opened StubMachine
  import opened StubCode
  import opened MidHookStub
  import opened MidHookBridge
  import opened MidHookUnwind

  // ------------------------------------------------------------------- sizes

  lemma {:induction false} XmmsSize(n: nat)
    requires n <= 16
    ensures Size(SaveXmms(n)) == 9 * (16 - n) + (if n < 8 then 8 else 16 - n)
    decreases 16 - n
  {
    if n < 16 {
      XmmsSize(n + 1);
      SizeSnoc2(SaveXmms(n + 1), LeaRsp(-16), StoreXmm(n));
    }
  }

  /** Eight of the registers need a prefix byte. */
  lemma {:induction false} PushesSize(rs: seq<Reg>)
    requires |rs| <= 15 && forall k :: 0 <= k < |rs| ==> (rs[k] >= 8 <==> k < 8)
    ensures Size(PushAll(rs)) == |rs| + (if |rs| < 8 then |rs| else 8)
    decreases |rs|
  {
    if rs != [] {
      PushesSize(rs[..|rs| - 1]);
      SizeSnoc(PushAll(rs[..|rs| - 1]), Push(rs[|rs| - 1]));
    }
  }

  lemma MarkSize(site: nat)
    ensures Size(Mark(site)) == 16
  {
    assert Mark(site) == ([] + [Push(R11), MovImm(R11, site)]) + [XchgTop(R11)];
    SizeSnoc2([], Push(R11), MovImm(R11, site));
    SizeSnoc([] + [Push(R11), MovImm(R11, site)], XchgTop(R11));
  }

  lemma SmallSizes()
    ensures Size(Reserve()) == 13 && Size(SaveMxcsr()) == 9 && Size(SetFrame()) == 8
  {
    assert Reserve() == [] + [LeaRsp(-8), ZeroTop];
    SizeSnoc2([], LeaRsp(-8), ZeroTop);
    assert SaveMxcsr() == [] + [LeaRsp(-8), Stmxcsr];
    SizeSnoc2([], LeaRsp(-8), Stmxcsr);
    assert SetFrame() == ([] + [Pushfq, Cld]) + [MovFromRsp(RCX), MovFromRsp(RBP)];
    SizeSnoc2([], Pushfq, Cld);
    SizeSnoc2([] + [Pushfq, Cld], MovFromRsp(RCX), MovFromRsp(RBP));
  }

  lemma SumSizes(a: seq<Insn>, b: seq<Insn>, c: seq<Insn>, d: seq<Insn>, e: seq<Insn>)
    ensures Size(a + b + c + d + e) == Size(a) + Size(b) + Size(c) + Size(d) + Size(e)
  {
    SizeConcat(a, b);
    SizeConcat(a + b, c);
    SizeConcat(a + b + c, d);
    SizeConcat(a + b + c + d, e);
  }

  lemma Assoc6<T>(a: seq<T>, b: seq<T>, c: seq<T>, d: seq<T>, e: seq<T>, f: seq<T>)
    ensures a + b + c + d + e + f == a + (b + c + d + e + f)
  {
  }

  lemma PrologueIs(site: nat)
    ensures Prologue(site) == Mark(site) + FrameCode()
  {
    Assoc6(Mark(site), Reserve(), Xmms(), SaveMxcsr(), PushAll(SAVED_REGS), SetFrame());
  }

  /** Where the described part starts: just past the site store. */
  const PROLOGUE_START := 16

  lemma FrameSize()
    ensures End(PROLOGUE_START, FrameCode()) == 221
  {
    SmallSizes();
    XmmsSize(0);
    PushesSize(SAVED_REGS);
    SumSizes(Reserve(), Xmms(), SaveMxcsr(), PushAll(SAVED_REGS), SetFrame());
  }

  /** The prologue is 221 bytes long, so its size and every offset in it fit a byte. */
  lemma PrologueSize(site: nat)
    ensures Size(Mark(site)) == PROLOGUE_START
    ensures |EncodeAll(Prologue(site))| == Size(Prologue(site)) == 221
  {
    FrameSize();
    MarkSize(site);
    PrologueIs(site);
    SizeConcat(Mark(site), FrameCode());
    EncodeSize(Prologue(site));
  }

  // ---------------------------------------------------------- in the prologue

  lemma {:induction false} SoundPrefix(p: seq<Insn>, k: nat)
    requires Sound(p) && k <= |p|
    ensures Sound(p[..k])
    decreases |p|
  {
    if k == |p| {
      assert p[..k] == p;
    } else {
      SoundPrefix(p[..|p| - 1], k);
      assert p[..|p| - 1][..k] == p[..k];
    }
  }

  lemma LaidRestores(env: Env, p: seq<Insn>, e: State, t: State)
    requires Laid(env, p, e, t)
    ensures Restored(env, p, e.rsp, t.mem, t.regs) == e.regs
  {
  }

  lemma LaidUnwinds(env: Env, start: nat, p: seq<Insn>, q: seq<Insn>, e: State, t: State)
    requires Sound(p) && Laid(env, p, e, t) && End(start, p + q) < 256
    ensures Unwind(env, t.mem, Slots(start, p + q), End(start, p), Frame(t.rsp, t.regs)) == Frame(e.rsp, e.regs)
  {
    var u := Frame(t.rsp, t.regs);
    UnwindSkips(env, t.mem, start, p, q, u);
    UnwindUndoes(env, t.mem, start, p, End(start, p), e.rsp, u);
    LaidRestores(env, p, e, t);
  }

  /** At every boundary of a sound prologue `f` entered in state `e`. */
  lemma SoundUnwinds(env: Env, start: nat, e: State, f: seq<Insn>, k: nat)
    requires Shape(e) && LawfulMemory(env) && k <= |f| && Sound(f) && End(start, f) < 256
    ensures var t := Run(env, f[..k], e);
            && Unwind(env, t.mem, Slots(start, f), End(start, f[..k]), Frame(t.rsp, t.regs)) == Frame(e.rsp, e.regs)
            && SameFrom(env, e.mem, t.mem, e.rsp)
  {
    var p, q := f[..k], f[k..];
    assert f == p + q;
    SoundPrefix(f, k);
    SoundIsLaid(env, p, e);
    LaidUnwinds(env, start, p, q, e, Run(env, p, e));
  }

  ghost predicate UnwindsTo(env: Env, f: seq<Insn>, at: nat, t: State, rsp: int, regs: seq<int>) {
    |t.regs| == 16 && Unwind(env, t.mem, Slots(PROLOGUE_START, f), at, Frame(t.rsp, t.regs)) == Frame(rsp, regs)
  }

  lemma AfterHead(env: Env, h: seq<Insn>, s: State, p: seq<Insn>)
    requires Shape(s) && Size(h) == PROLOGUE_START
    ensures Run(env, h + p, s) == Run(env, p, Run(env, h, s)) && Size(h + p) == End(PROLOGUE_START, p)
  {
    RunConcat(env, h, p, s);
    SizeConcat(h, p);
  }

  lemma HeadedUnwinds(env: Env, h: seq<Insn>, s: State, f: seq<Insn>, k: nat)
    requires Shape(s) && LawfulMemory(env) && k <= |f| && Sound(f) && End(PROLOGUE_START, f) < 256 &&
               Size(h) == PROLOGUE_START
    ensures var e, t := Run(env, h, s), Run(env, h + f[..k], s);
            UnwindsTo(env, f, Size(h + f[..k]), t, e.rsp, e.regs) && SameFrom(env, e.mem, t.mem, e.rsp)
  {
    AfterHead(env, h, s, f[..k]);
    SoundUnwinds(env, PROLOGUE_START, Run(env, h, s), f, k);
  }

  /**
   At every instruction boundary of the prologue from the site store on, the codes
   whose offset has been passed restore the entry registers and leave rsp on the slot
   that holds the hooked address.
   */
  lemma PrologueUnwinds(env: Env, site: nat, s: State, k: nat)
    requires Shape(s) && LawfulMemory(env) && k <= |FrameCode()|
    ensures var p := Mark(site) + FrameCode()[..k];
            var t := Run(env, p, s);
            UnwindsTo(env, FrameCode(), Size(p), t, s.rsp - 8, s.regs) && env.read(t.mem, s.rsp - 8) == site
  {
    FrameSize();
    FrameCodeIsSound();
    MarkSize(site);
    MarkEffect(env, site, s);
    HeadedUnwinds(env, Mark(site), s, FrameCode(), k);
  }

  // ----------------------------------------------------- past the prologue

  lemma FrameUnwinds(env: Env, m: Mem, f: seq<Insn>, at: nat, c: int, u: Frame)
    requires |u.regs| == 16 && u.regs[RBP] == c && End(PROLOGUE_START, f) <= at && End(PROLOGUE_START, f) < 256
    requires Sound(f) && FrameSet(f) && Depth(f) == 400 && forall r: Reg :: SavedAt(f, r) == 400 - FieldOf(r)
    ensures var v := Unwind(env, m, Slots(PROLOGUE_START, f), at, u);
            v.rsp == c + 400 && RegsAre(env, m, c, v.regs)
  {
    UnwindUndoes(env, m, PROLOGUE_START, f, at, c + 400, u);
    var v := Unwind(env, m, Slots(PROLOGUE_START, f), at, u);
    forall r: Reg ensures env.read(m, c + FieldOf(r)) == v.regs[r] {
      assert SavedAt(f, r) == 400 - FieldOf(r) > 0;
    }
  }

  /** With rbp on the context block, the codes read the registers out of it. */
  lemma ContextUnwinds(env: Env, m: Mem, at: nat, c: int, u: Frame)
    requires |u.regs| == 16 && u.regs[RBP] == c && at >= 221
    ensures var v := Unwind(env, m, Slots(PROLOGUE_START, FrameCode()), at, u);
            v.rsp == c + 400 && RegsAre(env, m, c, v.regs)
  {
    FrameSize();
    FrameCodeIsSound();
    FrameUnwinds(env, m, FrameCode(), at, c, u);
  }

  /** Bytes `sub rsp` has taken. */
  function Sunk(p: seq<Insn>): int {
    if p == [] then 0 else Sunk(p[..|p| - 1]) + if p[|p| - 1].SubRsp? then p[|p| - 1].size else 0
  }

  /** Between the prologue and the call: nothing that could reach the context block. */
  predicate Low(p: seq<Insn>) {
    p == [] || (Low(p[..|p| - 1]) && StaysLow(p[..|p| - 1], p[|p| - 1]))
  }

  predicate StaysLow(p: seq<Insn>, i: Insn) {
    match i
    case AndRsp => true
    case SubRsp(_) => true
    case SpillYmm(_, disp) => disp + 16 <= Sunk(p)
    case MovImm(r, _) => r == RAX
    case _ => false
  }

  ghost predicate Below(env: Env, p: seq<Insn>, s: State, t: State) {
    && Shape(t) && t.rsp + Sunk(p) <= s.rsp && |s.regs| == 16 && t.regs[RBP] == s.regs[RBP]
    && SameFrom(env, s.mem, t.mem, s.rsp)
  }

  lemma BelowStep(env: Env, p: seq<Insn>, i: Insn, s: State, t: State)
    requires LawfulMemory(env) && Below(env, p, s, t) && Low(p + [i])
    ensures Below(env, p + [i], s, Exec(env, i, t))
  {
    Snoc(p, i);
    match i {
      case SpillYmm(n, disp) => WriteWideLaws(env, t.mem, t.rsp + disp, t.ymm[n]);
      case _ =>
    }
  }

  lemma {:induction false} LowStaysBelow(env: Env, p: seq<Insn>, k: nat, s: State)
    requires LawfulMemory(env) && Shape(s) && Low(p) && k <= |p|
    ensures Below(env, p[..k], s, Run(env, p[..k], s))
    decreases |p|, k
  {
    if k < |p| {
      LowStaysBelow(env, p[..|p| - 1], k, s);
      assert p[..|p| - 1][..k] == p[..k];
    } else if k > 0 {
      var front, i := p[..k - 1], p[k - 1];
      LowStaysBelow(env, front, k - 1, s);
      assert front[..k - 1] == front && p[..k] == p == front + [i];
      RunSnoc(env, front, i, s);
      BelowStep(env, front, i, s, Run(env, front, s));
    }
  }

  lemma LowSnoc(p: seq<Insn>, i: Insn)
    ensures Sunk(p + [i]) == Sunk(p) + if i.SubRsp? then i.size else 0
    ensures Low(p + [i]) <==> Low(p) && StaysLow(p, i)
  {
    Snoc(p, i);
  }

  lemma Assoc3<T>(a: seq<T>, b: seq<T>, c: seq<T>)
    ensures a + (b + c) == (a + b) + c
  {
  }

  predicate IsSpill(i: Insn) { i.SpillYmm? && i.disp + 16 <= 256 }

  predicate AllSpills(q: seq<Insn>) {
    forall k :: 0 <= k < |q| ==> IsSpill(q[k])
  }

  ghost predicate Extends(low: seq<Insn> -> bool) {
    forall p: seq<Insn>, i: Insn {:trigger low(p + [i])} :: low(p) && IsSpill(i) ==> low(p + [i])
  }

  lemma {:induction false} SpillsExtend(low: seq<Insn> -> bool, p: seq<Insn>, q: seq<Insn>)
    requires Extends(low) && low(p) && AllSpills(q)
    ensures low(p + q)
    decreases |q|
  {
    if q == [] {
      assert p + q == p;
    } else {
      var front, i := q[..|q| - 1], q[|q| - 1];
      SpillsExtend(low, p, front);
      assert low((p + front) + [i]);
      assert p + q == (p + front) + [i];
    }
  }

  lemma SpillsAreLow(p: seq<Insn>, q: seq<Insn>)
    requires Low(p) && Sunk(p) == 256 && AllSpills(q)
    ensures Low(p + q) && Sunk(p + q) == 256
  {
    var low := (p: seq<Insn>) => Low(p) && Sunk(p) == 256;
    forall p: seq<Insn>, i: Insn | low(p) && IsSpill(i) ensures low(p + [i]) {
      LowSnoc(p, i);
    }
    SpillsExtend(low, p, q);
  }

  lemma {:induction false} YmmsAreSpills(n: nat)
    requires n <= 16
    ensures AllSpills(SpillYmms(n))
  {
    if n > 0 {
      YmmsAreSpills(n - 1);
    }
  }

  lemma AndIsLow()
    ensures Low([AndRsp]) && Sunk([AndRsp]) == 0
  {
    LowSnoc([], AndRsp);
    assert [] + [AndRsp] == [AndRsp];
  }

  lemma SinkIsLow(q: seq<Insn>)
    requires AllSpills(q)
    ensures Low([AndRsp] + ([SubRsp(256)] + q))
  {
    AndIsLow();
    LowSnoc([AndRsp], SubRsp(256));
    SpillsAreLow([AndRsp] + [SubRsp(256)], q);
    Assoc3([AndRsp], [SubRsp(256)], q);
  }

  lemma AlignIsLow(avx: bool)
    ensures Low(Align(avx))
  {
    if avx {
      YmmsAreSpills(16);
      SinkIsLow(Ymms());
    } else {
      AndIsLow();
      assert Align(avx) == [AndRsp];
    }
  }

  lemma ApproachIsLow(avx: bool, handler: nat)
    ensures Low(Align(avx) + Enter(handler))
  {
    AlignIsLow(avx);
    EnterIsLow(Align(avx), handler);
  }

  lemma EnterIsLow(p: seq<Insn>, handler: nat)
    requires Low(p)
    ensures Low(p + Enter(handler))
  {
    LowSnoc(p, SubRsp(32));
    LowSnoc(p + [SubRsp(32)], MovImm(RAX, handler));
    Snoc2Is(p, SubRsp(32), MovImm(RAX, handler));
  }

  /** The unwinder's result at state `t`: the registers in the context block, rsp on the slot of the hooked address. */
  ghost predicate UnwindsToSite(env: Env, site: nat, c: int, at: nat, t: State) {
    && Shape(t)
    && var v := Unwind(env, t.mem, Slots(PROLOGUE_START, FrameCode()), at, Frame(t.rsp, t.regs));
       v.rsp == c + 400 && RegsAre(env, t.mem, c, v.regs) && env.read(t.mem, v.rsp) == site
  }

  /** Between the prologue and the call, where the block still holds the entry registers. */
  lemma ApproachUnwinds(env: Env, w: Params, s: State, k: nat, at: nat)
    requires Shape(s) && LawfulMemory(env)
    requires k <= |Align(w.avx) + Enter(w.handler)| && at >= 221
    ensures var c := s.rsp - BLOCK_SIZE;
            var t := Run(env, Prologue(w.site) + (Align(w.avx) + Enter(w.handler))[..k], s);
            UnwindsToSite(env, w.site, c, at, t) && RegsAre(env, t.mem, c, s.regs)
  {
    var body := Align(w.avx) + Enter(w.handler);
    var e := Run(env, Prologue(w.site), s);
    PrologueEffect(env, w.site, s);
    RunConcat(env, Prologue(w.site), body[..k], s);
    ApproachIsLow(w.avx, w.handler);
    LowStaysBelow(env, body, k, e);
    CapturedUnwinds(env, w.site, s, e.mem, Run(env, body[..k], e), at);
  }

  lemma CapturedUnwinds(env: Env, site: nat, s: State, m: Mem, t: State, at: nat)
    requires Shape(s) && Shape(t) && Captured(env, site, s, m) && SameFrom(env, m, t.mem, s.rsp - BLOCK_SIZE)
    requires t.regs[RBP] == s.rsp - BLOCK_SIZE && at >= 221
    ensures UnwindsToSite(env, site, s.rsp - BLOCK_SIZE, at, t) && RegsAre(env, t.mem, s.rsp - BLOCK_SIZE, s.regs)
  {
    CapturedIsKept(env, site, s, m, t.mem);
    ContextUnwinds(env, t.mem, at, s.rsp - BLOCK_SIZE, Frame(t.rsp, t.regs));
  }

  predicate Reading(p: seq<Insn>) {
    forall k :: 0 <= k < |p| ==> p[k].ReloadYmm? || p[k].MovRspRbp?
  }

  lemma {:induction false} ReadingKeeps(env: Env, p: seq<Insn>, s: State)
    requires Shape(s) && Reading(p)
    ensures var t := Run(env, p, s); t.mem == s.mem && t.regs == s.regs
    decreases |p|
  {
    if p != [] {
      ReadingKeeps(env, p[..|p| - 1], s);
    }
  }

  lemma {:induction false} ReloadsRead(n: nat)
    requires n <= 16
    ensures Reading(ReloadYmms(n))
  {
    if n > 0 {
      ReloadsRead(n - 1);
    }
  }

  lemma LeaveReads(avx: bool)
    ensures Reading(Leave(avx))
  {
    ReloadsRead(16);
  }

  /**
   In and after the handler, up to the end of the covered range: the codes recover the
   registers the context block holds by then. The handler is only asked to keep the
   calling convention and not to overwrite the site slot, which is outside the block.
   */
  lemma ReturnUnwinds(env: Env, w: Params, s: State, k: nat, at: nat)
    requires Shape(s) && LawfulMemory(env) && LawfulAlu(env) && RespectsAbi(env)
    requires env.read(AtReturn(env, w, s).mem, s.rsp - 8) == w.site
    requires k <= |Leave(w.avx)| && at >= 221
    ensures UnwindsToSite(env, w.site, s.rsp - BLOCK_SIZE, at, Run(env, Leave(w.avx)[..k], AtReturn(env, w, s)))
  {
    var c := s.rsp - BLOCK_SIZE;
    var q := AtReturn(env, w, s);
    ContextIsCaptured(env, w, s);
    HandlerReturns(env, w, s, AtCall(env, w, s));
    LeaveReads(w.avx);
    ReadingKeeps(env, Leave(w.avx)[..k], q);
    var t := Run(env, Leave(w.avx)[..k], q);
    ContextUnwinds(env, t.mem, at, c, Frame(t.rsp, t.regs));
  }

  // -------------------------------------------------------------- the offsets

  ghost predicate Descending(slots: seq<nat>, low: nat, high: nat) {
    && (forall k :: 0 <= k < |slots| ==> low < slots[k] % 256 <= high)
    && forall j, k :: 0 <= j < k < |slots| ==> slots[j] % 256 > slots[k] % 256
  }

  lemma DescendingCons(slot: nat, slots: seq<nat>, low: nat, high: nat)
    requires Descending(slots, low, high) && low <= high < slot % 256
    ensures Descending([slot] + slots, low, slot % 256)
  {
  }

  /** Codes come last instruction first, with offsets that fit a byte. */
  lemma {:induction false} SlotsDescend(start: nat, p: seq<Insn>)
    requires End(start, p) < 256
    ensures Descending(Slots(start, p), start, End(start, p))
    decreases |p|
  {
    if p != [] {
      var front, i := p[..|p| - 1], p[|p| - 1];
      assert p == front + [i];
      SlotsSnoc(start, front, i);
      SlotsDescend(start, front);
      DescendingSnoc(start, front, i);
    }
  }

  lemma DescendingSnoc(start: nat, p: seq<Insn>, i: Insn)
    requires End(start, p + [i]) < 256 && start <= End(start, p) && Descending(Slots(start, p), start, End(start, p))
    ensures Descending(Slots(start, p + [i]), start, End(start, p + [i]))
  {
    SlotsSnoc(start, p, i);
    DescendingStep(OpOf(i), Slots(start, p), start, End(start, p), End(start, p + [i]));
  }

  lemma DescendingStep(op: Option<nat>, rest: seq<nat>, low: nat, high: nat, offset: nat)
    requires Descending(rest, low, high) && low <= high < offset < 256
    ensures Descending((if op.Some? then [Slot(offset, op.value)] else []) + rest, low, offset)
  {
    if op.Some? {
      assert Slot(offset, op.value) % 256 == offset;
      DescendingCons(Slot(offset, op.value), rest, low, high);
    } else {
      assert [] + rest == rest;
    }
  }
}
