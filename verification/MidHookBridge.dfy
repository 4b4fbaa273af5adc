/**
 The whole mid-hook stub: from the jump into it to the jump out of it, around an
 arbitrary handler that keeps to the calling convention.
 */
module MidHookBridge {
  import opened Options
  import opened StubMachine
  import opened MidHookStub

  // ------------------------------------------------------------ the program

  function Ymms(): seq<Insn> { SpillYmms(16) }
  function YmmsBack(): seq<Insn> { ReloadYmms(16) }
  function XmmsBack(): seq<Insn> { LoadXmms(16) }

  function Align(avx: bool): seq<Insn> { [AndRsp] + if avx then [SubRsp(256)] + Ymms() else [] }

  function Enter(handler: nat): seq<Insn> { [SubRsp(32), MovImm(RAX, handler)] }

  /** Everything up to the call. */
  function BeforeCall(w: Params): seq<Insn> { Prologue(w.site) + (Align(w.avx) + Enter(w.handler)) }

  /** From the call back to the context block: the last part the unwind data covers. */
  function Leave(avx: bool): seq<Insn> { (if avx then YmmsBack() else []) + [MovRspRbp] }

  function Choose(gateway: nat): seq<Insn> { Pick(gateway) + [StoreFrame(REDIRECT_OFFSET)] }

  function RestoreRegs(): seq<Insn> { [Popfq] + PopAll(RESTORED_REGS) }
  function MxcsrBack(): seq<Insn> { [Ldmxcsr, LeaRsp(8)] }
  function RestoreVectors(): seq<Insn> { MxcsrBack() + XmmsBack() }
  function Exit(): seq<Insn> { [LeaRsp(16), JmpMem(-16)] }

  function Restore(): seq<Insn> { RestoreRegs() + RestoreVectors() + Exit() }

  function AfterCall(w: Params): seq<Insn> { Leave(w.avx) + Choose(w.gateway) + Restore() }

  function Program(w: Params): seq<Insn> { BeforeCall(w) + [CallRax] + AfterCall(w) }

  // ---------------------------------------------------------- up to the call

  /**
   What the calling convention demands of a handler entered with an aligned stack,
   a clear direction flag and 32 bytes of shadow space: it comes back with the same
   rsp and rbp, and writes nothing between its shadow space and the context block it
   was given. The context block itself it may edit at will, and so any other memory.
   */
  ghost predicate RespectsAbi(env: Env) {
    forall s: State {:trigger env.handler(s)} ::
      Shape(s) && s.rsp % 16 == 0 && !Df(s.flags) && s.rsp + 32 <= s.regs[RCX] ==>
        var r := env.handler(s);
        && Shape(r) && r.rsp == s.rsp && r.regs[RBP] == s.regs[RBP]
        && forall b :: s.rsp + 32 <= b && b + 8 <= s.regs[RCX] ==> env.read(r.mem, b) == env.read(s.mem, b)
  }

  /** The handler's view when it is called: state `s` is captured at `c`, and `p` is fit for a call. */
  ghost predicate ReadyToCall(env: Env, w: Params, s: State, p: State)
    requires Shape(s)
  {
    var c := s.rsp - BLOCK_SIZE;
    && Shape(p)
    && Captured(env, w.site, s, p.mem)
    && p.regs == s.regs[RCX := c][RBP := c][RAX := w.handler]
    && p.rsp % 16 == 0 && !Df(p.flags) && p.rsp + 32 <= c
    && (w.avx ==> p.rsp + 288 <= c && XmmsAre(env, p.mem, p.rsp + 32, s.ymm))
  }

  lemma CapturedIsKept(env: Env, site: nat, s: State, m: Mem, m': Mem)
    requires Shape(s) && Captured(env, site, s, m) && SameFrom(env, m, m', s.rsp - BLOCK_SIZE)
    ensures Captured(env, site, s, m')
  {
    var c := s.rsp - BLOCK_SIZE;
    RegsAreKept(env, m, m', c, s.regs);
    XmmsAreKept(env, m, m', c + 136, s.xmm);
    SameFromTrans(env, s.mem, m, m', s.rsp, c);
  }

  /** `and rsp, -16` and the YMM spill stay below the context block. */
  ghost predicate Aligned(env: Env, avx: bool, s: State, r: State)
    requires Shape(s)
  {
    && r == s.(rsp := r.rsp, mem := r.mem, flags := r.flags)
    && r.rsp % 16 == 0 && r.rsp <= s.rsp && Df(r.flags) == Df(s.flags)
    && SameFrom(env, s.mem, r.mem, s.rsp)
    && (avx ==> r.rsp + 256 <= s.rsp && XmmsAre(env, r.mem, r.rsp, s.ymm))
  }

  lemma AndAligns(env: Env, s: State)
    requires Shape(s) && LawfulAlu(env)
    ensures Aligned(env, false, s, Exec(env, AndRsp, s))
  {
  }

  lemma SpillAligned(env: Env, s: State, s2: State, r: State)
    requires Shape(s) && s2 == s.(rsp := s2.rsp, flags := s2.flags)
    requires s2.rsp % 16 == 0 && s2.rsp + 256 <= s.rsp && Df(s2.flags) == Df(s.flags)
    requires YmmsSpilled(env, 16, s2, r)
    ensures Aligned(env, true, s, r)
  {
  }

  lemma SubAligned(env: Env, s: State)
    requires Shape(s) && LawfulAlu(env)
    ensures var s2 := Exec(env, SubRsp(256), Exec(env, AndRsp, s));
            && s2 == s.(rsp := s2.rsp, flags := s2.flags)
            && s2.rsp % 16 == 0 && s2.rsp + 256 <= s.rsp && Df(s2.flags) == Df(s.flags)
  {
    var s1 := Exec(env, AndRsp, s);
    assert Df(env.alu(s1, SubRsp(256))) == Df(s1.flags);
  }

  lemma AlignRun(env: Env, q: seq<Insn>, s: State)
    requires Shape(s)
    ensures Run(env, [AndRsp] + ([SubRsp(256)] + q), s) == Run(env, q, Exec(env, SubRsp(256), Exec(env, AndRsp, s)))
  {
    RunConcat(env, [] + [AndRsp, SubRsp(256)], q, s);
    RunSnoc2(env, [], AndRsp, SubRsp(256), s);
    assert [AndRsp] + ([SubRsp(256)] + q) == ([] + [AndRsp, SubRsp(256)]) + q;
  }

  lemma AlignEffect(env: Env, avx: bool, s: State)
    requires Shape(s) && LawfulMemory(env) && LawfulAlu(env)
    ensures Aligned(env, avx, s, Run(env, Align(avx), s))
  {
    if avx {
      var s2 := Exec(env, SubRsp(256), Exec(env, AndRsp, s));
      AlignRun(env, Ymms(), s);
      SubAligned(env, s);
      SpillYmmsEffect(env, 16, s2);
      SpillAligned(env, s, s2, Run(env, Ymms(), s2));
    } else {
      RunSnoc(env, [], AndRsp, s);
      assert Align(avx) == [] + [AndRsp];
      AndAligns(env, s);
    }
  }

  ghost predicate Entered(handler: nat, s: State, r: State)
    requires Shape(s)
  {
    r == s.(rsp := s.rsp - 32, flags := r.flags, regs := s.regs[RAX := handler]) && Df(r.flags) == Df(s.flags)
  }

  lemma EnterEffect(env: Env, handler: nat, s: State)
    requires Shape(s) && LawfulAlu(env)
    ensures Entered(handler, s, Run(env, Enter(handler), s))
  {
    assert Enter(handler) == [] + [SubRsp(32), MovImm(RAX, handler)];
    RunSnoc2(env, [], SubRsp(32), MovImm(RAX, handler), s);
  }

  lemma StagesAreReady(env: Env, w: Params, s: State, s1: State, s2: State, s3: State)
    requires Shape(s) && Shape(s1) && Shape(s2)
    requires var c := s.rsp - BLOCK_SIZE;
             s1 == s.(rsp := c, mem := s1.mem, flags := ClearDf(s.flags), regs := s.regs[RCX := c][RBP := c])
    requires Captured(env, w.site, s, s1.mem) && Aligned(env, w.avx, s1, s2) && Entered(w.handler, s2, s3)
    ensures ReadyToCall(env, w, s, s3)
  {
    CapturedIsKept(env, w.site, s, s1.mem, s2.mem);
  }

  /** The stub keeps its side of the calling convention and hands over the entry state. */
  lemma ContextIsCaptured(env: Env, w: Params, s: State)
    requires Shape(s) && LawfulMemory(env) && LawfulAlu(env)
    ensures ReadyToCall(env, w, s, Run(env, BeforeCall(w), s))
  {
    var s1 := Run(env, Prologue(w.site), s);
    var s2 := Run(env, Align(w.avx), s1);
    RunConcat(env, Prologue(w.site), Align(w.avx) + Enter(w.handler), s);
    RunConcat(env, Align(w.avx), Enter(w.handler), s1);
    PrologueEffect(env, w.site, s);
    AlignEffect(env, w.avx, s1);
    EnterEffect(env, w.handler, s2);
    StagesAreReady(env, w, s, s1, s2, Run(env, Enter(w.handler), s2));
  }

  // ---------------------------------------------------------- after the call

  /** The stub jumps to the handler's redirect, or on to the gateway if it set none. */
  function Destination(redirect: int, gateway: nat): int { if redirect != 0 then redirect else gateway }

  ghost predicate Left(env: Env, avx: bool, s: State, r: State)
    requires Shape(s)
  {
    && r == s.(rsp := s.regs[RBP], ymm := r.ymm) && |r.ymm| == 16
    && (avx ==> XmmsAre(env, s.mem, s.rsp + 32, r.ymm))
  }

  lemma LeaveEffect(env: Env, avx: bool, s: State)
    requires Shape(s)
    ensures Left(env, avx, s, Run(env, Leave(avx), s))
  {
    if avx {
      RunSnoc(env, YmmsBack(), MovRspRbp, s);
      ReloadYmmsEffect(env, 16, s);
    } else {
      assert Leave(avx) == [] + [MovRspRbp];
      RunSnoc(env, [], MovRspRbp, s);
    }
  }

  ghost predicate Chosen(env: Env, gateway: nat, s: State, r: State)
    requires Shape(s)
  {
    var slot := s.regs[RBP] + REDIRECT_OFFSET;
    r == s.(regs := r.regs, flags := r.flags,
            mem := env.write(s.mem, slot, Destination(env.read(s.mem, slot), gateway)))
  }

  lemma PickDestination(env: Env, gateway: nat, s: State)
    requires Shape(s) && LawfulAlu(env)
    ensures var s2 := Exec(env, MovImm(RCX, gateway), Exec(env, LoadFrame(REDIRECT_OFFSET), s));
            Picked(env, gateway, s, Exec(env, CmovzRaxRcx, Exec(env, TestRax, s2)))
  {
  }

  ghost predicate Picked(env: Env, gateway: nat, s: State, r: State)
    requires Shape(s)
  {
    && r == s.(regs := r.regs, flags := r.flags) && |r.regs| == 16 && r.regs[RBP] == s.regs[RBP]
    && r.regs[RAX] == Destination(env.read(s.mem, s.regs[RBP] + REDIRECT_OFFSET), gateway)
  }

  lemma PickEffect(env: Env, gateway: nat, s: State)
    requires Shape(s) && LawfulAlu(env)
    ensures Picked(env, gateway, s, Run(env, Pick(gateway), s))
  {
    var p1 := [] + [LoadFrame(REDIRECT_OFFSET), MovImm(RCX, gateway)];
    assert Pick(gateway) == p1 + [TestRax, CmovzRaxRcx];
    RunSnoc2(env, [], LoadFrame(REDIRECT_OFFSET), MovImm(RCX, gateway), s);
    RunSnoc2(env, p1, TestRax, CmovzRaxRcx, s);
    PickDestination(env, gateway, s);
  }

  lemma ChooseEffect(env: Env, gateway: nat, s: State)
    requires Shape(s) && LawfulAlu(env)
    ensures Chosen(env, gateway, s, Run(env, Choose(gateway), s))
  {
    PickEffect(env, gateway, s);
    RunSnoc(env, Pick(gateway), StoreFrame(REDIRECT_OFFSET), s);
  }

  /** The restore half puts the block at `s.rsp` into the registers and jumps through its redirect slot. */
  ghost predicate RestoredFrom(env: Env, s: State, r: State)
    requires Shape(s) && Shape(r)
  {
    && ContextIs(env, s.mem, s.rsp, r.regs, r.flags, r.mxcsr, r.xmm)
    && r.rsp == s.rsp + BLOCK_SIZE && r.ymm == s.ymm && r.mem == s.mem
    && r.jump == Some(env.read(s.mem, s.rsp + REDIRECT_OFFSET))
  }

  ghost predicate RegsRestored(env: Env, s: State, r: State)
    requires Shape(s) && Shape(r)
  {
    && r == s.(rsp := s.rsp + 128, flags := env.read(s.mem, s.rsp), regs := r.regs)
    && RegsAre(env, s.mem, s.rsp, r.regs)
  }

  ghost predicate VectorsRestored(env: Env, s: State, r: State)
    requires Shape(s) && Shape(r)
  {
    && r == s.(rsp := s.rsp + 264, mxcsr := env.read32(s.mem, s.rsp), xmm := r.xmm)
    && XmmsAre(env, s.mem, s.rsp + 8, r.xmm)
  }

  lemma PoppedRegs(env: Env, s: State, s1: State, r: State)
    requires Shape(s) && Shape(r) && s1 == s.(rsp := s.rsp + 8, flags := env.read(s.mem, s.rsp))
    requires Popped(env, RESTORED_REGS, s1, r)
    ensures RegsRestored(env, s, r)
  {
    PoppedIsContext(env, s1, r, s.rsp);
  }

  lemma RestoreRegsEffect(env: Env, s: State)
    requires Shape(s)
    ensures RegsRestored(env, s, Run(env, RestoreRegs(), s))
  {
    var s1 := s.(rsp := s.rsp + 8, flags := env.read(s.mem, s.rsp));
    RunConcat(env, [Popfq], PopAll(RESTORED_REGS), s);
    assert [Popfq] == [] + [Popfq];
    RunSnoc(env, [], Popfq, s);
    PopAllEffect(env, RESTORED_REGS, s1);
    PoppedRegs(env, s, s1, Run(env, PopAll(RESTORED_REGS), s1));
  }

  lemma LoadedVectors(env: Env, s: State, s1: State, r: State)
    requires Shape(s) && Shape(r) && s1 == s.(rsp := s.rsp + 8, mxcsr := env.read32(s.mem, s.rsp))
    requires XmmsLoaded(env, 16, s1, r)
    ensures VectorsRestored(env, s, r)
  {
  }

  lemma MxcsrBackEffect(env: Env, s: State)
    requires Shape(s)
    ensures Run(env, MxcsrBack(), s) == s.(rsp := s.rsp + 8, mxcsr := env.read32(s.mem, s.rsp))
  {
    assert MxcsrBack() == [] + [Ldmxcsr, LeaRsp(8)];
    RunSnoc2(env, [], Ldmxcsr, LeaRsp(8), s);
  }

  lemma RestoreVectorsEffect(env: Env, s: State)
    requires Shape(s)
    ensures VectorsRestored(env, s, Run(env, RestoreVectors(), s))
  {
    var s1 := s.(rsp := s.rsp + 8, mxcsr := env.read32(s.mem, s.rsp));
    RunConcat(env, MxcsrBack(), XmmsBack(), s);
    MxcsrBackEffect(env, s);
    LoadXmmsEffect(env, 16, s1);
    LoadedVectors(env, s, s1, Run(env, XmmsBack(), s1));
  }

  lemma ExitEffect(env: Env, s: State)
    requires Shape(s)
    ensures Run(env, Exit(), s) == s.(rsp := s.rsp + 16, jump := Some(env.read(s.mem, s.rsp)))
  {
    assert Exit() == [] + [LeaRsp(16), JmpMem(-16)];
    RunSnoc2(env, [], LeaRsp(16), JmpMem(-16), s);
  }

  lemma StagesRestore(env: Env, s: State, s1: State, s2: State, r: State)
    requires Shape(s) && Shape(s1) && Shape(s2) && Shape(r)
    requires RegsRestored(env, s, s1) && VectorsRestored(env, s1, s2)
    requires r == s2.(rsp := s2.rsp + 16, jump := Some(env.read(s2.mem, s2.rsp)))
    ensures RestoredFrom(env, s, r)
  {
    assert XmmsAre(env, s.mem, s.rsp + 136, r.xmm);
  }

  lemma RestoreEffect(env: Env, s: State)
    requires Shape(s)
    ensures RestoredFrom(env, s, Run(env, Restore(), s))
  {
    var s1 := Run(env, RestoreRegs(), s);
    var s2 := Run(env, RestoreVectors(), s1);
    RunConcat(env, RestoreRegs(), RestoreVectors(), s);
    RunConcat(env, RestoreRegs() + RestoreVectors(), Exit(), s);
    RestoreRegsEffect(env, s);
    RestoreVectorsEffect(env, s1);
    ExitEffect(env, s2);
    StagesRestore(env, s, s1, s2, Run(env, Exit(), s2));
  }

  function PopIndex(r: Reg): (k: nat)
    ensures k < |RESTORED_REGS| && RESTORED_REGS[k] == r
  {
    if r < RSP then r else r - 1
  }

  lemma PoppedIsContext(env: Env, s: State, r: State, c: int)
    requires Shape(s) && Popped(env, RESTORED_REGS, s, r) && s.rsp == c + 8
    ensures RegsAre(env, s.mem, c, r.regs)
  {
    forall q: Reg ensures env.read(s.mem, c + FieldOf(q)) == r.regs[q] {
      var k := PopIndex(q);
      assert r.regs[RESTORED_REGS[k]] == env.read(s.mem, s.rsp + 8 * k);
    }
  }

  /** The block at `c` reads back unchanged after the redirect slot is overwritten. */
  lemma ContextSurvivesChoice(env: Env, m: Mem, c: int, v: int, regs: seq<int>, flags: int, mxcsr: int, xmm: seq<Wide>)
    requires LawfulMemory(env) && |regs| == 16 && |xmm| == 16
    requires ContextIs(env, env.write(m, c + REDIRECT_OFFSET, v), c, regs, flags, mxcsr, xmm)
    ensures ContextIs(env, m, c, regs, flags, mxcsr, xmm)
  {
    var m' := env.write(m, c + REDIRECT_OFFSET, v);
    forall r: Reg ensures env.read(m, c + FieldOf(r)) == regs[r] {
      assert env.read(m', c + FieldOf(r)) == regs[r];
    }
    forall j | 0 <= j < 16 ensures ReadWide(env, m, c + 136 + 16 * j) == xmm[j] {
      assert ReadWide(env, m', c + 136 + 16 * j) == xmm[j];
    }
  }

  /** Reached when the handler came back: its rsp and rbp are the stub's, and the spilled halves are intact. */
  ghost predicate Returned(env: Env, w: Params, s: State, q: State)
    requires Shape(s)
  {
    && Shape(q) && q.regs[RBP] == s.rsp - BLOCK_SIZE
    && (w.avx ==> XmmsAre(env, q.mem, q.rsp + 32, s.ymm))
  }

  lemma HandlerReturns(env: Env, w: Params, s: State, p: State)
    requires Shape(s) && RespectsAbi(env) && ReadyToCall(env, w, s, p)
    ensures Returned(env, w, s, Exec(env, CallRax, p))
  {
    var q := Exec(env, CallRax, p);
    assert q == env.handler(p);
    if w.avx {
      forall j | 0 <= j < 16 ensures ReadWide(env, q.mem, q.rsp + 32 + 16 * j) == s.ymm[j] {
        assert ReadWide(env, p.mem, p.rsp + 32 + 16 * j) == s.ymm[j];
      }
    }
  }

  /**
   The registers, flags, vector registers, stack pointer and jump the stub ends with, and the
   memory it leaves alone.
   */
  ghost predicate Bridged(env: Env, w: Params, s: State, q: State, r: State)
    requires Shape(s) && Shape(q) && Shape(r)
  {
    var c := s.rsp - BLOCK_SIZE;
    && ContextIs(env, q.mem, c, r.regs, r.flags, r.mxcsr, r.xmm)
    && r.rsp == s.rsp
    && r.jump == Some(Destination(env.read(q.mem, c + REDIRECT_OFFSET), w.gateway))
    && SameFrom(env, q.mem, r.mem, s.rsp)
    && (w.avx ==> r.ymm == s.ymm)
  }

  lemma StagesBridge(env: Env, w: Params, s: State, q: State, q1: State, q2: State, r: State)
    requires Shape(s) && Shape(q1) && Shape(q2) && Shape(r) && LawfulMemory(env) && Returned(env, w, s, q)
    requires Left(env, w.avx, q, q1) && Chosen(env, w.gateway, q1, q2) && RestoredFrom(env, q2, r)
    ensures Bridged(env, w, s, q, r)
  {
    var c := s.rsp - BLOCK_SIZE;
    var v := Destination(env.read(q.mem, c + REDIRECT_OFFSET), w.gateway);
    ContextSurvivesChoice(env, q.mem, c, v, r.regs, r.flags, r.mxcsr, r.xmm);
    WriteLaws(env, q.mem, c + REDIRECT_OFFSET, v);
    if w.avx {
      forall j | 0 <= j < 16 ensures r.ymm[j] == s.ymm[j] {
        assert ReadWide(env, q.mem, q.rsp + 32 + 16 * j) == s.ymm[j];
      }
    }
  }

  lemma RestoresFromBlock(env: Env, w: Params, s: State, q: State)
    requires Shape(s) && LawfulMemory(env) && LawfulAlu(env) && Returned(env, w, s, q)
    ensures Bridged(env, w, s, q, Run(env, AfterCall(w), q))
  {
    var q1 := Run(env, Leave(w.avx), q);
    var q2 := Run(env, Choose(w.gateway), q1);
    RunConcat(env, Leave(w.avx), Choose(w.gateway), q);
    RunConcat(env, Leave(w.avx) + Choose(w.gateway), Restore(), q);
    LeaveEffect(env, w.avx, q);
    ChooseEffect(env, w.gateway, q1);
    RestoreEffect(env, q2);
    StagesBridge(env, w, s, q, q1, q2, Run(env, Restore(), q2));
  }

  // ------------------------------------------------------------- the theorems

  /** The state the handler is called in. */
  function AtCall(env: Env, w: Params, s: State): State
    requires Shape(s)
  {
    Run(env, BeforeCall(w), s)
  }

  /** The state it returns. */
  function AtReturn(env: Env, w: Params, s: State): State
    requires Shape(s)
  {
    Exec(env, CallRax, AtCall(env, w, s))
  }

  /**
   For every entry state and every handler that keeps to the calling convention, the
   stub leaves with the registers, flags, MXCSR and vector registers the handler left
   in the context block, on the entry stack pointer, at the address the handler chose,
   and without having touched memory from the entry stack pointer up.
   */
  lemma StubBridges(env: Env, w: Params, s: State)
    requires Shape(s) && LawfulMemory(env) && LawfulAlu(env) && RespectsAbi(env)
    ensures ReadyToCall(env, w, s, AtCall(env, w, s))
    ensures Bridged(env, w, s, AtReturn(env, w, s), Run(env, Program(w), s))
  {
    var p := AtCall(env, w, s);
    var q := AtReturn(env, w, s);
    ContextIsCaptured(env, w, s);
    HandlerReturns(env, w, s, p);
    RestoresFromBlock(env, w, s, q);
    RunSnoc(env, BeforeCall(w), CallRax, s);
    RunConcat(env, BeforeCall(w) + [CallRax], AfterCall(w), s);
  }

  /** A handler that leaves the context and the caller's memory as they were is invisible. */
  lemma UntouchedContextChangesNothing(env: Env, w: Params, s: State)
    requires Shape(s) && LawfulMemory(env) && LawfulAlu(env) && RespectsAbi(env)
    requires SameFrom(env, AtCall(env, w, s).mem, AtReturn(env, w, s).mem, s.rsp - BLOCK_SIZE)
    ensures var r := Run(env, Program(w), s);
            && (forall i: Reg :: r.regs[i] == s.regs[i])
            && r.rsp == s.rsp && r.flags == s.flags && r.mxcsr == s.mxcsr && r.xmm == s.xmm
            && (w.avx ==> r.ymm == s.ymm)
            && SameFrom(env, s.mem, r.mem, s.rsp)
            && r.jump == Some(w.gateway)
  {
    var c := s.rsp - BLOCK_SIZE;
    var p, q := AtCall(env, w, s), AtReturn(env, w, s);
    var r := Run(env, Program(w), s);
    StubBridges(env, w, s);
    CapturedIsKept(env, w.site, s, p.mem, q.mem);
    SameContext(env, q.mem, c, s, r);
    SameFromTrans(env, s.mem, q.mem, r.mem, s.rsp, s.rsp);
  }

  lemma SameContext(env: Env, m: Mem, c: int, s: State, r: State)
    requires Shape(s) && Shape(r)
    requires ContextIs(env, m, c, s.regs, s.flags, s.mxcsr, s.xmm)
    requires ContextIs(env, m, c, r.regs, r.flags, r.mxcsr, r.xmm)
    ensures forall i: Reg :: r.regs[i] == s.regs[i]
    ensures r.flags == s.flags && r.mxcsr == s.mxcsr && r.xmm == s.xmm
  {
    forall i: Reg ensures r.regs[i] == s.regs[i] {
      assert env.read(m, c + FieldOf(i)) == s.regs[i];
    }
    forall j | 0 <= j < 16 ensures r.xmm[j] == s.xmm[j] {
      assert ReadWide(env, m, c + 136 + 16 * j) == s.xmm[j];
    }
  }
}
