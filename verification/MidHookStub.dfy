/**
 The mid-hook context bridge: the program `build_stub` emits, and its effect for
 every processor state and every handler.

 The context block starts 408 bytes below the entry stack pointer:
 rflags, rax..rdi, r8..r15, mxcsr, xmm0..xmm15, redirect_rip, and above it the
 slot that holds the hooked address.
 */
module MidHookStub {
  import opened StubMachine

  const REDIRECT_OFFSET := 392
  const BLOCK_SIZE := 408

  /** What the stub is built for. */
  datatype Params = Params(site: nat, handler: nat, gateway: nat, avx: bool)

  // ------------------------------------------------------------ the program

  function Mark(site: nat): seq<Insn> { [Push(R11), MovImm(R11, site), XchgTop(R11)] }

  function Reserve(): seq<Insn> { [LeaRsp(-8), ZeroTop] }

  /** xmm15 down to xmm(n), so that xmm0 ends lowest. */
  function SaveXmms(n: nat): seq<Insn>
    requires n <= 16
    decreases 16 - n
  {
    if n == 16 then [] else SaveXmms(n + 1) + [LeaRsp(-16), StoreXmm(n)]
  }

  function SaveMxcsr(): seq<Insn> { [LeaRsp(-8), Stmxcsr] }

  const SAVED_REGS: seq<Reg> := [15, 14, 13, 12, 11, 10, 9, 8, 7, 6, 5, 3, 2, 1, 0]

  function PushAll(rs: seq<Reg>): seq<Insn> {
    if rs == [] then [] else PushAll(rs[..|rs| - 1]) + [Push(rs[|rs| - 1])]
  }

  function SetFrame(): seq<Insn> { [Pushfq, Cld, MovFromRsp(RCX), MovFromRsp(RBP)] }

  function SpillYmms(n: nat): seq<Insn>
    requires n <= 16
  {
    if n == 0 then [] else SpillYmms(n - 1) + [SpillYmm(n - 1, 16 * (n - 1))]
  }

  function ReloadYmms(n: nat): seq<Insn>
    requires n <= 16
  {
    if n == 0 then [] else ReloadYmms(n - 1) + [ReloadYmm(n - 1, 32 + 16 * (n - 1))]
  }

  function Pick(gateway: nat): seq<Insn> {
    [LoadFrame(REDIRECT_OFFSET), MovImm(RCX, gateway), TestRax, CmovzRaxRcx]
  }

  const RESTORED_REGS: seq<Reg> := [0, 1, 2, 3, 5, 6, 7, 8, 9, 10, 11, 12, 13, 14, 15]

  function PopAll(rs: seq<Reg>): seq<Insn> {
    if rs == [] then [] else PopAll(rs[..|rs| - 1]) + [Pop(rs[|rs| - 1])]
  }

  function LoadXmms(n: nat): seq<Insn>
    requires n <= 16
  {
    if n == 0 then [] else LoadXmms(n - 1) + [LoadXmm(n - 1), LeaRsp(16)]
  }

  // ------------------------------------------------------------ the context

  /** Where `HookContext` keeps general register `r`. */
  function FieldOf(r: Reg): int { if r < RSP then 8 + 8 * r else 8 * r }

  datatype ContextField = Flags | Gpr(r: Reg) | Mxcsr | Reserved | Vectors | RedirectRip

  /** The fields of `HookContext` in their order of declaration. */
  function Fields(): seq<ContextField> {
    [Flags, Gpr(0), Gpr(1), Gpr(2), Gpr(3), Gpr(5), Gpr(6), Gpr(7), Gpr(8), Gpr(9), Gpr(10), Gpr(11), Gpr(12), Gpr(13),
     Gpr(14), Gpr(15), Mxcsr, Reserved, Vectors, RedirectRip]
  }

  function FieldSize(f: ContextField): nat {
    match f
    case Flags | Gpr(_) | RedirectRip => 8
    case Mxcsr | Reserved => 4
    case Vectors => 16 * 16
  }

  /** Where the `k`-th field starts: nothing in the layout needs padding. */
  function FieldStart(k: nat): nat
    requires k <= |Fields()|
  {
    if k == 0 then 0 else FieldStart(k - 1) + FieldSize(Fields()[k - 1])
  }

  /** The offset the stub uses for a field. */
  function FieldOffset(f: ContextField): int {
    match f
    case Flags => 0
    case Gpr(r) => FieldOf(r)
    case Mxcsr => 128
    case Reserved => 132
    case Vectors => 136
    case RedirectRip => REDIRECT_OFFSET
  }

  /** The offsets are those of the declaration. */
  lemma {:induction false} OffsetsAreDeclared(k: nat)
    requires k < |Fields()|
    ensures FieldStart(k) == FieldOffset(Fields()[k])
    decreases k
  {
    if k > 0 { OffsetsAreDeclared(k - 1); }
  }

  ghost predicate RegsAre(env: Env, m: Mem, c: int, regs: seq<int>)
    requires |regs| == 16
  {
    forall r: Reg :: env.read(m, c + FieldOf(r)) == regs[r]
  }

  ghost predicate XmmsAre(env: Env, m: Mem, a: int, xmm: seq<Wide>)
    requires |xmm| == 16
  {
    forall j :: 0 <= j < 16 ==> ReadWide(env, m, a + 16 * j) == xmm[j]
  }

  /** The block at `c` holds this machine state, field by field as `HookContext` lays it out. */
  ghost predicate ContextIs(env: Env, m: Mem, c: int, regs: seq<int>, flags: int, mxcsr: int, xmm: seq<Wide>)
    requires |regs| == 16 && |xmm| == 16
  {
    && env.read(m, c) == flags
    && RegsAre(env, m, c, regs)
    && env.read32(m, c + 128) == mxcsr
    && XmmsAre(env, m, c + 136, xmm)
  }

  /** Memory from `a` up reads the same. */
  ghost predicate SameFrom(env: Env, m: Mem, m': Mem, a: int) {
    && (forall b :: a <= b ==> env.read(m', b) == env.read(m, b))
    && (forall b :: a <= b ==> env.read32(m', b) == env.read32(m, b))
  }

  // ------------------------------------------------------------- the groups

  lemma WriteWideLaws(env: Env, m: Mem, a: int, w: Wide)
    requires LawfulMemory(env)
    ensures var m' := WriteWide(env, m, a, w);
            && ReadWide(env, m', a) == w
            && SameFrom(env, m, m', a + 16)
            && forall b :: b + 8 <= a ==> env.read(m', b) == env.read(m, b)
  {
  }

  lemma WriteLaws(env: Env, m: Mem, a: int, v: int)
    requires LawfulMemory(env)
    ensures var m' := env.write(m, a, v);
            && env.read(m', a) == v
            && SameFrom(env, m, m', a + 8)
            && forall b :: b + 8 <= a ==> env.read(m', b) == env.read(m, b)
  {
  }

  /** After the pushes of `rs`: the first one highest. */
  ghost predicate Pushed(env: Env, rs: seq<Reg>, s: State, r: State)
    requires Shape(s)
  {
    && r == s.(rsp := s.rsp - 8 * |rs|, mem := r.mem)
    && SameFrom(env, s.mem, r.mem, s.rsp)
    && forall k :: 0 <= k < |rs| ==> env.read(r.mem, s.rsp - 8 * k - 8) == s.regs[rs[k]]
  }

  lemma PushedStep(env: Env, rs: seq<Reg>, q: Reg, s: State, r: State)
    requires Shape(s) && LawfulMemory(env) && Pushed(env, rs, s, r)
    ensures Pushed(env, rs + [q], s, Exec(env, Push(q), r))
  {
    WriteLaws(env, r.mem, r.rsp - 8, s.regs[q]);
  }

  lemma {:induction false} PushAllEffect(env: Env, rs: seq<Reg>, s: State)
    requires Shape(s) && LawfulMemory(env)
    ensures Pushed(env, rs, s, Run(env, PushAll(rs), s))
    decreases |rs|
  {
    if rs != [] {
      var front, q := rs[..|rs| - 1], rs[|rs| - 1];
      PushAllEffect(env, front, s);
      RunSnoc(env, PushAll(front), Push(q), s);
      PushedStep(env, front, q, s, Run(env, PushAll(front), s));
      assert rs == front + [q];
    }
  }

  ghost predicate XmmsSaved(env: Env, n: nat, s: State, r: State)
    requires Shape(s) && n <= 16
  {
    && r == s.(rsp := s.rsp - 16 * (16 - n), mem := r.mem)
    && SameFrom(env, s.mem, r.mem, s.rsp)
    && forall j :: n <= j < 16 ==> ReadWide(env, r.mem, s.rsp - 256 + 16 * j) == s.xmm[j]
  }

  lemma XmmsSavedStep(env: Env, n: Lane, s: State, r: State)
    requires Shape(s) && LawfulMemory(env) && XmmsSaved(env, n + 1, s, r)
    ensures XmmsSaved(env, n, s, Exec(env, StoreXmm(n), Exec(env, LeaRsp(-16), r)))
  {
    WriteWideLaws(env, r.mem, r.rsp - 16, s.xmm[n]);
  }

  lemma {:induction false} SaveXmmsEffect(env: Env, n: nat, s: State)
    requires Shape(s) && LawfulMemory(env) && n <= 16
    ensures XmmsSaved(env, n, s, Run(env, SaveXmms(n), s))
    decreases 16 - n
  {
    if n < 16 {
      SaveXmmsEffect(env, n + 1, s);
      RunSnoc2(env, SaveXmms(n + 1), LeaRsp(-16), StoreXmm(n), s);
      XmmsSavedStep(env, n, s, Run(env, SaveXmms(n + 1), s));
    }
  }

  ghost predicate YmmsSpilled(env: Env, n: nat, s: State, r: State)
    requires Shape(s) && n <= 16
  {
    && r == s.(mem := r.mem)
    && SameFrom(env, s.mem, r.mem, s.rsp + 16 * n)
    && forall j :: 0 <= j < n ==> ReadWide(env, r.mem, s.rsp + 16 * j) == s.ymm[j]
  }

  lemma YmmsSpilledStep(env: Env, n: Lane, s: State, r: State)
    requires Shape(s) && LawfulMemory(env) && YmmsSpilled(env, n, s, r)
    ensures YmmsSpilled(env, n + 1, s, Exec(env, SpillYmm(n, 16 * n), r))
  {
    WriteWideLaws(env, r.mem, r.rsp + 16 * n, s.ymm[n]);
  }

  lemma {:induction false} SpillYmmsEffect(env: Env, n: nat, s: State)
    requires Shape(s) && LawfulMemory(env) && n <= 16
    ensures YmmsSpilled(env, n, s, Run(env, SpillYmms(n), s))
  {
    if n > 0 {
      SpillYmmsEffect(env, n - 1, s);
      RunSnoc(env, SpillYmms(n - 1), SpillYmm(n - 1, 16 * (n - 1)), s);
      YmmsSpilledStep(env, n - 1, s, Run(env, SpillYmms(n - 1), s));
    }
  }

  ghost predicate YmmsReloaded(env: Env, n: nat, s: State, r: State)
    requires Shape(s) && n <= 16
  {
    && r == s.(ymm := r.ymm) && |r.ymm| == 16
    && forall j :: 0 <= j < n ==> r.ymm[j] == ReadWide(env, s.mem, s.rsp + 32 + 16 * j)
  }

  lemma YmmsReloadedStep(env: Env, n: Lane, s: State, r: State)
    requires Shape(s) && YmmsReloaded(env, n, s, r)
    ensures YmmsReloaded(env, n + 1, s, Exec(env, ReloadYmm(n, 32 + 16 * n), r))
  {
  }

  lemma {:induction false} ReloadYmmsEffect(env: Env, n: nat, s: State)
    requires Shape(s) && n <= 16
    ensures YmmsReloaded(env, n, s, Run(env, ReloadYmms(n), s))
  {
    if n > 0 {
      ReloadYmmsEffect(env, n - 1, s);
      RunSnoc(env, ReloadYmms(n - 1), ReloadYmm(n - 1, 32 + 16 * (n - 1)), s);
      YmmsReloadedStep(env, n - 1, s, Run(env, ReloadYmms(n - 1), s));
    }
  }

  ghost predicate Distinct(rs: seq<Reg>) {
    forall j, k :: 0 <= j < k < |rs| ==> rs[j] != rs[k]
  }

  ghost predicate Popped(env: Env, rs: seq<Reg>, s: State, r: State)
    requires Shape(s)
  {
    && r == s.(rsp := s.rsp + 8 * |rs|, regs := r.regs) && |r.regs| == 16
    && forall k :: 0 <= k < |rs| ==> r.regs[rs[k]] == env.read(s.mem, s.rsp + 8 * k)
  }

  lemma PoppedStep(env: Env, rs: seq<Reg>, q: Reg, s: State, r: State)
    requires Shape(s) && Distinct(rs + [q]) && Popped(env, rs, s, r)
    ensures Popped(env, rs + [q], s, Exec(env, Pop(q), r))
  {
    forall k | 0 <= k < |rs| ensures rs[k] != q {
      assert (rs + [q])[k] != (rs + [q])[|rs|];
    }
  }

  lemma {:induction false} PopAllEffect(env: Env, rs: seq<Reg>, s: State)
    requires Shape(s) && Distinct(rs)
    ensures Popped(env, rs, s, Run(env, PopAll(rs), s))
    decreases |rs|
  {
    if rs != [] {
      var front, q := rs[..|rs| - 1], rs[|rs| - 1];
      PopAllEffect(env, front, s);
      RunSnoc(env, PopAll(front), Pop(q), s);
      assert rs == front + [q];
      PoppedStep(env, front, q, s, Run(env, PopAll(front), s));
    }
  }

  ghost predicate XmmsLoaded(env: Env, n: nat, s: State, r: State)
    requires Shape(s) && n <= 16
  {
    && r == s.(rsp := s.rsp + 16 * n, xmm := r.xmm) && |r.xmm| == 16
    && forall j :: 0 <= j < n ==> r.xmm[j] == ReadWide(env, s.mem, s.rsp + 16 * j)
  }

  lemma {:induction false} LoadXmmsEffect(env: Env, n: nat, s: State)
    requires Shape(s) && n <= 16
    ensures XmmsLoaded(env, n, s, Run(env, LoadXmms(n), s))
  {
    if n > 0 {
      LoadXmmsEffect(env, n - 1, s);
      RunSnoc2(env, LoadXmms(n - 1), LoadXmm(n - 1), LeaRsp(16), s);
    }
  }

  // ----------------------------------------------------------- the prologue

  function ClearDf(flags: int): int { if Df(flags) then flags - 1024 else flags }

  lemma MarkEffect(env: Env, site: nat, s: State)
    requires Shape(s) && LawfulMemory(env)
    ensures var r := Run(env, Mark(site), s);
            && r == s.(rsp := s.rsp - 8, mem := r.mem)
            && env.read(r.mem, s.rsp - 8) == site
            && SameFrom(env, s.mem, r.mem, s.rsp)
  {
    var s1 := Exec(env, Push(R11), s);
    var s2 := Exec(env, MovImm(R11, site), s1);
    var s3 := Exec(env, XchgTop(R11), s2);
    assert Mark(site) == [] + [Push(R11), MovImm(R11, site)] + [XchgTop(R11)];
    RunSnoc2(env, [], Push(R11), MovImm(R11, site), s);
    RunSnoc(env, [] + [Push(R11), MovImm(R11, site)], XchgTop(R11), s);
    WriteLaws(env, s.mem, s.rsp - 8, s.regs[R11]);
    WriteLaws(env, s1.mem, s.rsp - 8, site);
    assert s3.regs == s.regs;
  }

  lemma ReserveEffect(env: Env, s: State)
    requires Shape(s) && LawfulMemory(env)
    ensures var r := Run(env, Reserve(), s);
            && r == s.(rsp := s.rsp - 8, mem := r.mem)
            && env.read(r.mem, s.rsp - 8) == 0
            && SameFrom(env, s.mem, r.mem, s.rsp)
  {
    assert Reserve() == [] + [LeaRsp(-8), ZeroTop];
    RunSnoc2(env, [], LeaRsp(-8), ZeroTop, s);
    WriteLaws(env, s.mem, s.rsp - 8, 0);
  }

  lemma SaveMxcsrEffect(env: Env, s: State)
    requires Shape(s) && LawfulMemory(env)
    ensures var r := Run(env, SaveMxcsr(), s);
            && r == s.(rsp := s.rsp - 8, mem := r.mem)
            && env.read32(r.mem, s.rsp - 8) == s.mxcsr
            && SameFrom(env, s.mem, r.mem, s.rsp)
  {
    assert SaveMxcsr() == [] + [LeaRsp(-8), Stmxcsr];
    RunSnoc2(env, [], LeaRsp(-8), Stmxcsr, s);
  }

  lemma SetFrameEffect(env: Env, s: State)
    requires Shape(s) && LawfulMemory(env)
    ensures var r := Run(env, SetFrame(), s);
            var c := s.rsp - 8;
            && r == s.(rsp := c, mem := r.mem, flags := ClearDf(s.flags), regs := s.regs[RCX := c][RBP := c])
            && env.read(r.mem, c) == s.flags
            && SameFrom(env, s.mem, r.mem, s.rsp)
  {
    assert SetFrame() == [] + [Pushfq, Cld] + [MovFromRsp(RCX), MovFromRsp(RBP)];
    RunSnoc2(env, [], Pushfq, Cld, s);
    RunSnoc2(env, [] + [Pushfq, Cld], MovFromRsp(RCX), MovFromRsp(RBP), s);
    WriteLaws(env, s.mem, s.rsp - 8, s.flags);
  }

  lemma SameFromTrans(env: Env, m: Mem, m': Mem, m'': Mem, a: int, b: int)
    requires SameFrom(env, m, m', a) && SameFrom(env, m', m'', b) && b <= a
    ensures SameFrom(env, m, m'', a)
  {
  }

  function PushIndex(r: Reg): (k: nat)
    ensures k < |SAVED_REGS| && SAVED_REGS[k] == r
  {
    if r < RSP then 14 - r else 15 - r
  }

  /** The pushes lay the registers out as `HookContext` declares them. */
  lemma PushedIsContext(env: Env, s: State, r: State, c: int)
    requires Shape(s) && Pushed(env, SAVED_REGS, s, r) && s.rsp == c + 128
    ensures RegsAre(env, r.mem, c, s.regs)
  {
    forall q: Reg ensures env.read(r.mem, c + FieldOf(q)) == s.regs[q] {
      var k := PushIndex(q);
      assert env.read(r.mem, s.rsp - 8 * k - 8) == s.regs[SAVED_REGS[k]];
    }
  }

  function Xmms(): seq<Insn> { SaveXmms(0) }

  /** The part the unwind codes describe. */
  function Prologue(site: nat): seq<Insn> {
    Mark(site) + Reserve() + Xmms() + SaveMxcsr() + PushAll(SAVED_REGS) + SetFrame()
  }

  lemma RegsAreKept(env: Env, m: Mem, m': Mem, c: int, regs: seq<int>)
    requires |regs| == 16 && RegsAre(env, m, c, regs) && SameFrom(env, m, m', c + 8)
    ensures RegsAre(env, m', c, regs)
  {
    forall r: Reg ensures env.read(m', c + FieldOf(r)) == regs[r] {
      assert env.read(m, c + FieldOf(r)) == regs[r];
    }
  }

  lemma XmmsAreKept(env: Env, m: Mem, m': Mem, a: int, xmm: seq<Wide>)
    requires |xmm| == 16 && XmmsAre(env, m, a, xmm) && SameFrom(env, m, m', a)
    ensures XmmsAre(env, m', a, xmm)
  {
    forall j | 0 <= j < 16 ensures ReadWide(env, m', a + 16 * j) == xmm[j] {
      assert ReadWide(env, m, a + 16 * j) == xmm[j];
    }
  }

  /** What the prologue leaves on the stack. */
  ghost predicate Captured(env: Env, site: nat, s: State, m: Mem)
    requires Shape(s)
  {
    var c := s.rsp - BLOCK_SIZE;
    && ContextIs(env, m, c, s.regs, s.flags, s.mxcsr, s.xmm)
    && env.read(m, c + REDIRECT_OFFSET) == 0
    && env.read(m, c + 400) == site
    && SameFrom(env, s.mem, m, s.rsp)
  }

  lemma PrologueEffect(env: Env, site: nat, s: State)
    requires Shape(s) && LawfulMemory(env)
    ensures var r := Run(env, Prologue(site), s);
            var c := s.rsp - BLOCK_SIZE;
            && r == s.(rsp := c, mem := r.mem, flags := ClearDf(s.flags), regs := s.regs[RCX := c][RBP := c])
            && Captured(env, site, s, r.mem)
  {
    var c := s.rsp - BLOCK_SIZE;
    var s1 := Run(env, Mark(site), s);
    var s2 := Run(env, Reserve(), s1);
    var s3 := Run(env, Xmms(), s2);
    var s4 := Run(env, SaveMxcsr(), s3);
    var s5 := Run(env, PushAll(SAVED_REGS), s4);
    var s6 := Run(env, SetFrame(), s5);
    assert Run(env, Prologue(site), s) == s6 by {
      var p2 := Mark(site) + Reserve();
      var p3 := p2 + Xmms();
      var p4 := p3 + SaveMxcsr();
      var p5 := p4 + PushAll(SAVED_REGS);
      RunConcat(env, Mark(site), Reserve(), s);
      RunConcat(env, p2, Xmms(), s);
      RunConcat(env, p3, SaveMxcsr(), s);
      RunConcat(env, p4, PushAll(SAVED_REGS), s);
      RunConcat(env, p5, SetFrame(), s);
    }
    MarkEffect(env, site, s);
    ReserveEffect(env, s1);
    SaveXmmsEffect(env, 0, s2);
    SaveMxcsrEffect(env, s3);
    PushAllEffect(env, SAVED_REGS, s4);
    SetFrameEffect(env, s5);
    Assemble(env, site, s, s1, s2, s3, s4, s5, s6);
  }

  lemma Assemble(env: Env, site: nat, s: State, s1: State, s2: State, s3: State, s4: State, s5: State, s6: State)
    requires Shape(s)
    requires s1 == s.(rsp := s.rsp - 8, mem := s1.mem)
    requires env.read(s1.mem, s.rsp - 8) == site && SameFrom(env, s.mem, s1.mem, s.rsp)
    requires s2 == s1.(rsp := s1.rsp - 8, mem := s2.mem)
    requires env.read(s2.mem, s1.rsp - 8) == 0 && SameFrom(env, s1.mem, s2.mem, s1.rsp)
    requires XmmsSaved(env, 0, s2, s3)
    requires s4 == s3.(rsp := s3.rsp - 8, mem := s4.mem)
    requires env.read32(s4.mem, s3.rsp - 8) == s3.mxcsr && SameFrom(env, s3.mem, s4.mem, s3.rsp)
    requires Pushed(env, SAVED_REGS, s4, s5)
    requires var c := s5.rsp - 8;
             && s6 == s5.(rsp := c, mem := s6.mem, flags := ClearDf(s5.flags), regs := s5.regs[RCX := c][RBP := c])
             && env.read(s6.mem, c) == s5.flags
             && SameFrom(env, s5.mem, s6.mem, s5.rsp)
    ensures var c := s.rsp - BLOCK_SIZE;
            s6 == s.(rsp := c, mem := s6.mem, flags := ClearDf(s.flags), regs := s.regs[RCX := c][RBP := c])
    ensures Captured(env, site, s, s6.mem)
  {
    var c := s.rsp - BLOCK_SIZE;
    SameFromTrans(env, s4.mem, s5.mem, s6.mem, s4.rsp, s5.rsp);
    SameFromTrans(env, s3.mem, s4.mem, s6.mem, s3.rsp, s4.rsp);
    SameFromTrans(env, s2.mem, s3.mem, s6.mem, s2.rsp, s3.rsp);
    SameFromTrans(env, s1.mem, s2.mem, s6.mem, s1.rsp, s2.rsp);
    SameFromTrans(env, s.mem, s1.mem, s6.mem, s.rsp, s1.rsp);
    PushedIsContext(env, s4, s5, c);
    RegsAreKept(env, s5.mem, s6.mem, c, s.regs);
    assert XmmsAre(env, s3.mem, c + 136, s.xmm);
    XmmsAreKept(env, s3.mem, s6.mem, c + 136, s.xmm);
  }
}
