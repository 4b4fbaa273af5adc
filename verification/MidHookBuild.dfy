/**
 `build_stub`: appends the stub's machine code and the unwind codes of its prologue,
 instruction by instruction.
 */
module MidHookBuild {
  import opened Options
  import opened LittleEndian
  import opened StubMachine
  import opened StubCode
  import opened X64Decoder
  import opened MidHookStub
  import opened MidHookBridge
  import opened MidHookUnwind
  import opened MidHookBoundary

  const STUB_CAPACITY := 1024

  datatype Stub = Stub(bytes: seq<nat>, slots: seq<nat>, prologSize: nat, frame: nat, end: nat)

  type Codes = seq<(nat, nat)>

  // ---------------------------------------------------------- the prologue

  /** How code and unwind entries grow with the program; instances are `CodeFrom` and `EntriesFrom` below. */
  ghost predicate Grows(code: seq<Insn> -> seq<nat>, codes: seq<Insn> -> Codes) {
    forall p: seq<Insn>, i: Insn {:trigger code(p + [i])} {:trigger codes(p + [i])} ::
      && code(p + [i]) == code(p) + Encode(i)
      && codes(p + [i]) == codes(p) + if OpOf(i).Some? then [(|code(p + [i])|, OpOf(i).value)] else []
  }

  lemma GrowsBy(code: seq<Insn> -> seq<nat>, codes: seq<Insn> -> Codes, p: seq<Insn>, i: Insn)
    requires Grows(code, codes)
    ensures code(p + [i]) == code(p) + Encode(i)
    ensures OpOf(i).None? ==> codes(p + [i]) == codes(p)
    ensures OpOf(i).Some? ==> codes(p + [i]) == codes(p) + [(|code(p + [i])|, OpOf(i).value)]
  {
  }

  method EmitReserve(c: seq<nat>, u: Codes, ghost code: seq<Insn> -> seq<nat>, ghost codes: seq<Insn> -> Codes,
                     ghost p: seq<Insn>)
    returns (c': seq<nat>, u': Codes)
    requires Grows(code, codes) && c == code(p) && u == codes(p)
    ensures c' == code(p + Reserve()) && u' == codes(p + Reserve())
  {
    GrowsBy(code, codes, p, LeaRsp(-8));
    c' := c + [0x48, 0x8D, 0x64, 0x24, 0xF8];
    u' := u + [(|c'|, Alloc(8))];
    GrowsBy(code, codes, p + [LeaRsp(-8)], ZeroTop);
    c' := c' + [0x48, 0xC7, 0x04, 0x24, 0x00, 0x00, 0x00, 0x00];
    Snoc2Is(p, LeaRsp(-8), ZeroTop);
  }

  method SaveXmm(c: seq<nat>, u: Codes, n: Lane, ghost code: seq<Insn> -> seq<nat>, ghost codes: seq<Insn> -> Codes,
                 ghost p: seq<Insn>)
    returns (c': seq<nat>, u': Codes)
    requires Grows(code, codes) && c == code(p) && u == codes(p)
    ensures c' == code(p + [LeaRsp(-16), StoreXmm(n)]) && u' == codes(p + [LeaRsp(-16), StoreXmm(n)])
  {
    GrowsBy(code, codes, p, LeaRsp(-16));
    c' := c + [0x48, 0x8D, 0x64, 0x24, 0xF0];
    u' := u + [(|c'|, Alloc(16))];
    GrowsBy(code, codes, p + [LeaRsp(-16)], StoreXmm(n));
    c' := c' + ((if n >= 8 then [0x44] else []) + [0x0F, 0x11, 0x04 + n % 8 * 8, 0x24]);
    Snoc2Is(p, LeaRsp(-16), StoreXmm(n));
  }

  lemma SaveXmmsSnoc(p: seq<Insn>, n: Lane)
    ensures p + SaveXmms(n) == p + SaveXmms(n + 1) + [LeaRsp(-16), StoreXmm(n)]
  {
  }

  method EmitXmms(c: seq<nat>, u: Codes, ghost code: seq<Insn> -> seq<nat>, ghost codes: seq<Insn> -> Codes,
                  ghost p: seq<Insn>)
    returns (c': seq<nat>, u': Codes)
    requires Grows(code, codes) && c == code(p) && u == codes(p)
    ensures c' == code(p + Xmms()) && u' == codes(p + Xmms())
  {
    c', u' := c, u;
    var n := 16;
    ghost var q := p;
    assert p + SaveXmms(16) == p;
    while n > 0
      invariant 0 <= n <= 16 && q == p + SaveXmms(n)
      invariant c' == code(q) && u' == codes(q)
    {
      n := n - 1;
      c', u' := SaveXmm(c', u', n, code, codes, q);
      q := q + [LeaRsp(-16), StoreXmm(n)];
      SaveXmmsSnoc(p, n);
    }
  }

  method EmitMxcsr(c: seq<nat>, u: Codes, ghost code: seq<Insn> -> seq<nat>, ghost codes: seq<Insn> -> Codes,
                   ghost p: seq<Insn>)
    returns (c': seq<nat>, u': Codes)
    requires Grows(code, codes) && c == code(p) && u == codes(p)
    ensures c' == code(p + SaveMxcsr()) && u' == codes(p + SaveMxcsr())
  {
    GrowsBy(code, codes, p, LeaRsp(-8));
    c' := c + [0x48, 0x8D, 0x64, 0x24, 0xF8];
    u' := u + [(|c'|, Alloc(8))];
    GrowsBy(code, codes, p + [LeaRsp(-8)], Stmxcsr);
    c' := c' + [0x0F, 0xAE, 0x1C, 0x24];
    Snoc2Is(p, LeaRsp(-8), Stmxcsr);
  }

  lemma PushAllSnoc(p: seq<Insn>, rs: seq<Reg>, k: nat)
    requires k < |rs|
    ensures p + PushAll(rs[..k + 1]) == p + PushAll(rs[..k]) + [Push(rs[k])]
  {
    assert rs[..k + 1][..k] == rs[..k];
  }

  method EmitPushes(c: seq<nat>, u: Codes, rs: seq<Reg>, ghost code: seq<Insn> -> seq<nat>,
                    ghost codes: seq<Insn> -> Codes, ghost p: seq<Insn>)
    returns (c': seq<nat>, u': Codes)
    requires Grows(code, codes) && c == code(p) && u == codes(p)
    ensures c' == code(p + PushAll(rs)) && u' == codes(p + PushAll(rs))
  {
    c', u' := c, u;
    ghost var q := p;
    assert p + PushAll(rs[..0]) == p;
    for k := 0 to |rs|
      invariant q == p + PushAll(rs[..k])
      invariant c' == code(q) && u' == codes(q)
    {
      var reg: nat := rs[k];
      GrowsBy(code, codes, q, Push(rs[k]));
      c' := c' + ((if reg >= 8 then [0x41] else []) + [0x50 + reg % 8]);
      u' := u' + [(|c'|, UWOP_PUSH_NONVOL + reg * 16)];
      q := q + [Push(rs[k])];
      PushAllSnoc(p, rs, k);
    }
    assert rs[..|rs|] == rs;
  }

  method EmitFrame(c: seq<nat>, u: Codes, ghost code: seq<Insn> -> seq<nat>, ghost codes: seq<Insn> -> Codes,
                   ghost p: seq<Insn>)
    returns (c': seq<nat>, u': Codes)
    requires Grows(code, codes) && c == code(p) && u == codes(p)
    ensures c' == code(p + SetFrame()) && u' == codes(p + SetFrame())
  {
    ghost var p1 := p + [Pushfq];
    ghost var p2 := p1 + [Cld];
    ghost var p3 := p2 + [MovFromRsp(RCX)];
    GrowsBy(code, codes, p, Pushfq);
    c' := c + [0x9C];
    u' := u + [(|c'|, Alloc(8))];
    GrowsBy(code, codes, p1, Cld);
    c' := c' + [0xFC];
    GrowsBy(code, codes, p2, MovFromRsp(RCX));
    c' := c' + [0x48, 0x89, 0xE1];
    GrowsBy(code, codes, p3, MovFromRsp(RBP));
    c' := c' + [0x48, 0x89, 0xE5];
    u' := u' + [(|c'|, UWOP_SET_FPREG)];
    assert p + SetFrame() == p3 + [MovFromRsp(RBP)];
  }

  method EmitMark(site: nat) returns (c: seq<nat>)
    ensures c == EncodeAll(Mark(site))
  {
    c := [0x41, 0x53];
    c := c + ([0x49, 0xBB] + Le(site, 8));
    c := c + [0x4C, 0x87, 0x1C, 0x24];
    MarkCode(site);
  }

  lemma MarkCode(site: nat)
    ensures EncodeAll(Mark(site)) == [0x41, 0x53] + ([0x49, 0xBB] + Le(site, 8)) + [0x4C, 0x87, 0x1C, 0x24]
  {
    assert Mark(site) == (([] + [Push(R11)]) + [MovImm(R11, site)]) + [XchgTop(R11)];
    EncodeSnoc([], Push(R11));
    EncodeSnoc([] + [Push(R11)], MovImm(R11, site));
    EncodeSnoc([] + [Push(R11)] + [MovImm(R11, site)], XchgTop(R11));
  }

  /** The part described by unwind codes, after code `c`. */
  method EmitFrameCode(c: seq<nat>, ghost code: seq<Insn> -> seq<nat>, ghost codes: seq<Insn> -> Codes)
    returns (c': seq<nat>, u': Codes)
    requires Grows(code, codes) && c == code([]) && codes([]) == []
    ensures c' == code(FrameCode()) && u' == codes(FrameCode())
  {
    c', u' := EmitReserve(c, [], code, codes, []);
    ghost var p1 := Reserve();
    assert [] + Reserve() == p1;
    c', u' := EmitXmms(c', u', code, codes, p1);
    ghost var p2 := p1 + Xmms();
    c', u' := EmitMxcsr(c', u', code, codes, p2);
    ghost var p3 := p2 + SaveMxcsr();
    c', u' := EmitPushes(c', u', SAVED_REGS, code, codes, p3);
    c', u' := EmitFrame(c', u', code, codes, p3 + PushAll(SAVED_REGS));
  }

  ghost function CodeFrom(head: seq<Insn>): seq<Insn> -> seq<nat> { p => EncodeAll(head + p) }

  ghost function EntriesFrom(start: nat): seq<Insn> -> Codes { p => Entries(start, p) }

  lemma EntriesSnoc(start: nat, p: seq<Insn>, i: Insn)
    ensures Entries(start, p + [i])
         == Entries(start, p) + if OpOf(i).Some? then [(End(start, p + [i]), OpOf(i).value)] else []
  {
    Snoc(p, i);
  }

  lemma CodeGrows(head: seq<Insn>, start: nat)
    requires Size(head) == start
    ensures Grows(CodeFrom(head), EntriesFrom(start))
  {
    var code, codes := CodeFrom(head), EntriesFrom(start);
    forall p: seq<Insn>, i: Insn
      ensures code(p + [i]) == code(p) + Encode(i)
      ensures codes(p + [i]) == codes(p) + if OpOf(i).Some? then [(|code(p + [i])|, OpOf(i).value)] else []
    {
      assert head + (p + [i]) == (head + p) + [i];
      EncodeSnoc(head + p, i);
      EncodeSize(head + (p + [i]));
      SizeConcat(head, p + [i]);
      EntriesSnoc(start, p, i);
    }
  }

  method EmitAfter(c: seq<nat>, ghost head: seq<Insn>) returns (c': seq<nat>, u: Codes)
    requires c == EncodeAll(head)
    ensures c' == EncodeAll(head + FrameCode()) && u == Entries(Size(head), FrameCode())
  {
    ghost var start := Size(head);
    CodeGrows(head, start);
    assert head + [] == head;
    c', u := EmitFrameCode(c, CodeFrom(head), EntriesFrom(start));
  }

  method EmitPrologue(site: nat) returns (c: seq<nat>, u: Codes)
    ensures c == EncodeAll(Prologue(site)) && u == Entries(PROLOGUE_START, FrameCode())
  {
    c := EmitMark(site);
    PrologueSize(site);
    c, u := EmitAfter(c, Mark(site));
    PrologueIs(site);
  }

  // ------------------------------------------------------------------ the rest

  ghost predicate Appends(code: seq<Insn> -> seq<nat>) {
    forall p: seq<Insn>, i: Insn {:trigger code(p + [i])} :: code(p + [i]) == code(p) + Encode(i)
  }

  lemma AlignIs(p: seq<Insn>, avx: bool)
    ensures p + Align(avx) == if avx then p + [AndRsp] + [SubRsp(256)] + Ymms() else p + [AndRsp]
  {
  }

  method EmitCall(c: seq<nat>, w: Params, ghost code: seq<Insn> -> seq<nat>, ghost p: seq<Insn>)
    returns (c': seq<nat>)
    requires Appends(code) && c == code(p)
    ensures c' == code(p + Align(w.avx) + Enter(w.handler) + [CallRax])
  {
    ghost var q := p + [AndRsp];
    c' := c + [0x48, 0x83, 0xE4, 0xF0];
    assert c' == code(q);
    if w.avx {
      c' := c' + ([0x48, 0x81, 0xEC] + Le(256, 4));
      assert c' == code(q + [SubRsp(256)]);
      c' := EmitSpills(c', code, q + [SubRsp(256)]);
      q := q + [SubRsp(256)] + Ymms();
    }
    AlignIs(p, w.avx);
    c' := EmitEnter(c', w.handler, code, q);
  }

  method EmitEnter(c: seq<nat>, handler: nat, ghost code: seq<Insn> -> seq<nat>, ghost p: seq<Insn>)
    returns (c': seq<nat>)
    requires Appends(code) && c == code(p)
    ensures c' == code(p + Enter(handler) + [CallRax])
  {
    ghost var q := p + [SubRsp(32)];
    c' := c + [0x48, 0x83, 0xEC, 0x20];
    assert c' == code(q);
    c' := c' + ([0x48, 0xB8] + Le(handler, 8));
    q := q + [MovImm(RAX, handler)];
    assert c' == code(q);
    c' := c' + [0xFF, 0xD0];
    assert c' == code(q + [CallRax]);
    Snoc2Is(p, SubRsp(32), MovImm(RAX, handler));
  }

  lemma SpillYmmsSnoc(p: seq<Insn>, n: Lane)
    ensures p + SpillYmms(n + 1) == p + SpillYmms(n) + [SpillYmm(n, 16 * n)]
    ensures p + ReloadYmms(n + 1) == p + ReloadYmms(n) + [ReloadYmm(n, 32 + 16 * n)]
  {
  }

  method EmitSpills(c: seq<nat>, ghost code: seq<Insn> -> seq<nat>, ghost p: seq<Insn>) returns (c': seq<nat>)
    requires Appends(code) && c == code(p)
    ensures c' == code(p + Ymms())
  {
    c' := c;
    ghost var q := p;
    assert p + SpillYmms(0) == p;
    for n := 0 to 16
      invariant q == p + SpillYmms(n) && c' == code(q)
    {
      c' := c' + YmmUpper(n, n * 16, false);
      q := q + [SpillYmm(n, 16 * n)];
      assert c' == code(q);
      SpillYmmsSnoc(p, n);
    }
  }

  method EmitReloads(c: seq<nat>, ghost code: seq<Insn> -> seq<nat>, ghost p: seq<Insn>) returns (c': seq<nat>)
    requires Appends(code) && c == code(p)
    ensures c' == code(p + YmmsBack())
  {
    c' := c;
    ghost var q := p;
    assert p + ReloadYmms(0) == p;
    for n := 0 to 16
      invariant q == p + ReloadYmms(n) && c' == code(q)
    {
      c' := c' + YmmUpper(n, 32 + n * 16, true);
      q := q + [ReloadYmm(n, 32 + 16 * n)];
      assert c' == code(q);
      SpillYmmsSnoc(p, n);
    }
  }

  method EmitLeave(c: seq<nat>, avx: bool, ghost code: seq<Insn> -> seq<nat>, ghost p: seq<Insn>)
    returns (c': seq<nat>)
    requires Appends(code) && c == code(p)
    ensures c' == code(p + Leave(avx))
  {
    c' := c;
    ghost var q := p;
    if avx {
      c' := EmitReloads(c', code, p);
      q := p + YmmsBack();
    }
    c' := c' + [0x48, 0x89, 0xEC];
    assert c' == code(q + [MovRspRbp]);
    assert q + [MovRspRbp] == p + Leave(avx);
  }

  lemma ChooseIs(p: seq<Insn>, gateway: nat)
    ensures p + Choose(gateway) == p + [LoadFrame(REDIRECT_OFFSET)] + [MovImm(RCX, gateway)] + [TestRax] + [CmovzRaxRcx]
                                   + [StoreFrame(REDIRECT_OFFSET)]
  {
  }

  method EmitPick(c: seq<nat>, gateway: nat, ghost code: seq<Insn> -> seq<nat>, ghost p: seq<Insn>)
    returns (c': seq<nat>)
    requires Appends(code) && c == code(p)
    ensures c' == code(p + [LoadFrame(REDIRECT_OFFSET)] + [MovImm(RCX, gateway)])
  {
    c' := c + ([0x48, 0x8B, 0x85] + Le(REDIRECT_OFFSET, 4));
    assert c' == code(p + [LoadFrame(REDIRECT_OFFSET)]);
    c' := c' + ([0x48, 0xB9] + Le(gateway, 8));
    assert c' == code(p + [LoadFrame(REDIRECT_OFFSET)] + [MovImm(RCX, gateway)]);
  }

  method EmitChoice(c: seq<nat>, gateway: nat, ghost code: seq<Insn> -> seq<nat>, ghost p: seq<Insn>)
    returns (c': seq<nat>)
    requires Appends(code) && c == code(p)
    ensures c' == code(p + Choose(gateway))
  {
    c' := EmitPick(c, gateway, code, p);
    ghost var q := p + [LoadFrame(REDIRECT_OFFSET)] + [MovImm(RCX, gateway)];
    c' := c' + [0x48, 0x85, 0xC0];
    assert c' == code(q + [TestRax]);
    c' := c' + [0x48, 0x0F, 0x44, 0xC1];
    assert c' == code(q + [TestRax] + [CmovzRaxRcx]);
    c' := c' + ([0x48, 0x89, 0x85] + Le(REDIRECT_OFFSET, 4));
    assert c' == code(q + [TestRax] + [CmovzRaxRcx] + [StoreFrame(REDIRECT_OFFSET)]);
    ChooseIs(p, gateway);
  }

  lemma PopAllSnoc(p: seq<Insn>, rs: seq<Reg>, k: nat)
    requires k < |rs|
    ensures p + PopAll(rs[..k + 1]) == p + PopAll(rs[..k]) + [Pop(rs[k])]
  {
    assert rs[..k + 1][..k] == rs[..k];
  }

  /** One literal in the source, given here register by register. */
  method EmitPops(c: seq<nat>, rs: seq<Reg>, ghost code: seq<Insn> -> seq<nat>, ghost p: seq<Insn>)
    returns (c': seq<nat>)
    requires Appends(code) && c == code(p)
    ensures c' == code(p + PopAll(rs))
  {
    c' := c;
    ghost var q := p;
    assert p + PopAll(rs[..0]) == p;
    for k := 0 to |rs|
      invariant q == p + PopAll(rs[..k]) && c' == code(q)
    {
      var reg: nat := rs[k];
      c' := c' + ((if reg >= 8 then [0x41] else []) + [0x58 + reg % 8]);
      q := q + [Pop(rs[k])];
      assert c' == code(q);
      PopAllSnoc(p, rs, k);
    }
    assert rs[..|rs|] == rs;
  }

  lemma LoadXmmsSnoc(p: seq<Insn>, n: Lane)
    ensures p + LoadXmms(n + 1) == p + LoadXmms(n) + [LoadXmm(n), LeaRsp(16)]
  {
  }

  method RestoreXmm(c: seq<nat>, n: Lane, ghost code: seq<Insn> -> seq<nat>, ghost p: seq<Insn>)
    returns (c': seq<nat>)
    requires Appends(code) && c == code(p)
    ensures c' == code(p + [LoadXmm(n), LeaRsp(16)])
  {
    c' := c + ((if n >= 8 then [0x44] else []) + [0x0F, 0x10, 0x04 + n % 8 * 8, 0x24]);
    assert c' == code(p + [LoadXmm(n)]);
    c' := c' + [0x48, 0x8D, 0x64, 0x24, 0x10];
    assert c' == code(p + [LoadXmm(n)] + [LeaRsp(16)]);
    Snoc2Is(p, LoadXmm(n), LeaRsp(16));
  }

  method EmitLoads(c: seq<nat>, ghost code: seq<Insn> -> seq<nat>, ghost p: seq<Insn>) returns (c': seq<nat>)
    requires Appends(code) && c == code(p)
    ensures c' == code(p + XmmsBack())
  {
    c' := c;
    ghost var q := p;
    assert p + LoadXmms(0) == p;
    for n := 0 to 16
      invariant q == p + LoadXmms(n) && c' == code(q)
    {
      c' := RestoreXmm(c', n, code, q);
      q := q + [LoadXmm(n), LeaRsp(16)];
      LoadXmmsSnoc(p, n);
    }
  }

  lemma RegroupRestore<T>(p: seq<T>, a: seq<T>, b: seq<T>, c: seq<T>, d: seq<T>)
    ensures p + a + b + (c + d) == p + (a + b + c + d)
  {
  }

  method EmitRestore(c: seq<nat>, ghost code: seq<Insn> -> seq<nat>, ghost p: seq<Insn>) returns (c': seq<nat>)
    requires Appends(code) && c == code(p)
    ensures c' == code(p + Restore())
  {
    c' := c + [0x9D];
    assert c' == code(p + [Popfq]);
    c' := EmitPops(c', RESTORED_REGS, code, p + [Popfq]);
    c' := EmitVectors(c', code, p + [Popfq] + PopAll(RESTORED_REGS));
    RegroupRestore(p, [Popfq], PopAll(RESTORED_REGS), RestoreVectors(), Exit());
  }

  lemma RegroupVectors<T>(p: seq<T>, a: T, b: T, c: seq<T>, d: T, e: T)
    ensures p + (([a, b] + c) + [d, e]) == p + [a] + [b] + c + [d] + [e]
  {
  }

  lemma VectorsIs(p: seq<Insn>)
    ensures p + (RestoreVectors() + Exit())
         == p + [Ldmxcsr] + [LeaRsp(8)] + XmmsBack() + [LeaRsp(16)] + [JmpMem(-16)]
  {
    RegroupVectors(p, Ldmxcsr, LeaRsp(8), XmmsBack(), LeaRsp(16), JmpMem(-16));
  }

  method EmitVectors(c: seq<nat>, ghost code: seq<Insn> -> seq<nat>, ghost p: seq<Insn>) returns (c': seq<nat>)
    requires Appends(code) && c == code(p)
    ensures c' == code(p + (RestoreVectors() + Exit()))
  {
    ghost var q := p + [Ldmxcsr];
    c' := c + [0x0F, 0xAE, 0x14, 0x24];
    assert c' == code(q);
    c' := c' + [0x48, 0x8D, 0x64, 0x24, 0x08];
    q := q + [LeaRsp(8)];
    assert c' == code(q);
    c' := EmitLoads(c', code, q);
    q := q + XmmsBack();
    c' := c' + [0x48, 0x8D, 0x64, 0x24, 0x10];
    q := q + [LeaRsp(16)];
    assert c' == code(q);
    c' := c' + [0xFF, 0x64, 0x24, 0xF0];
    q := q + [JmpMem(-16)];
    assert c' == code(q);
    VectorsIs(p);
  }

  // --------------------------------------------------------------- the slots

  function Reversed16(u: Codes): seq<nat> {
    if u == [] then [] else [Slot(u[|u| - 1].0, u[|u| - 1].1)] + Reversed16(u[..|u| - 1])
  }

  lemma {:induction false} EntriesReversed(start: nat, p: seq<Insn>)
    ensures Reversed16(Entries(start, p)) == Slots(start, p)
    decreases |p|
  {
    if p != [] {
      var front, i := p[..|p| - 1], p[|p| - 1];
      EntriesReversed(start, front);
      assert p == front + [i];
      EntriesSnoc(start, front, i);
      SlotsSnoc(start, front, i);
      if OpOf(i).Some? {
        Snoc(Entries(start, front), (End(start, p), OpOf(i).value));
      } else {
        assert Entries(start, front) + [] == Entries(start, front);
        assert [] + Slots(start, front) == Slots(start, front);
      }
    }
  }

  method CollectSlots(unwind: Codes) returns (slots: seq<nat>)
    ensures slots == Reversed16(unwind)
  {
    slots := [];
    var i := |unwind|;
    assert unwind[..i] == unwind;
    while i > 0
      invariant 0 <= i <= |unwind|
      invariant slots + Reversed16(unwind[..i]) == Reversed16(unwind)
    {
      i := i - 1;
      assert unwind[..i + 1][..i] == unwind[..i];
      slots := slots + [Slot(unwind[i].0, unwind[i].1)];
    }
  }

  ghost function Code(): seq<Insn> -> seq<nat> { p => EncodeAll(p) }

  lemma CodeAppends()
    ensures Appends(Code())
  {
    forall p: seq<Insn>, i: Insn ensures Code()(p + [i]) == Code()(p) + Encode(i) {
      EncodeSnoc(p, i);
    }
  }

  // ------------------------------------------------- reading the stub back

  predicate AllEncodable(p: seq<Insn>) {
    forall k :: 0 <= k < |p| ==> Encodable(p[k])
  }

  /** Encodable throughout, and at most `n` bytes long. */
  ghost predicate Within(p: seq<Insn>, n: int) { AllEncodable(p) && Size(p) <= n }

  lemma WithinConcat(p: seq<Insn>, a: int, q: seq<Insn>, b: int)
    requires Within(p, a) && Within(q, b)
    ensures Within(p + q, a + b)
  {
    SizeConcat(p, q);
  }

  lemma WithinSnoc(p: seq<Insn>, a: int, i: Insn)
    requires Within(p, a) && Encodable(i)
    ensures Within(p + [i], a + Len(i))
  {
    SizeSnoc(p, i);
  }

  lemma {:induction false} AnyWithin(p: seq<Insn>)
    requires AllEncodable(p)
    ensures Within(p, 11 * |p|)
    decreases |p|
  {
    if p != [] {
      AnyWithin(p[..|p| - 1]);
    }
  }

  lemma {:induction false} SavesWithin(n: nat)
    requires n <= 16
    ensures Within(SaveXmms(n), 10 * (16 - n))
    decreases 16 - n
  {
    if n < 16 {
      SavesWithin(n + 1);
      SizeSnoc2(SaveXmms(n + 1), LeaRsp(-16), StoreXmm(n));
    }
  }

  lemma {:induction false} LoadsWithin(n: nat)
    requires n <= 16
    ensures Within(LoadXmms(n), 10 * n)
  {
    if n > 0 {
      LoadsWithin(n - 1);
      SizeSnoc2(LoadXmms(n - 1), LoadXmm(n - 1), LeaRsp(16));
    }
  }

  lemma {:induction false} SpillsWithin(n: nat)
    requires n <= 16
    ensures Within(SpillYmms(n), 11 * n)
  {
    if n > 0 {
      SpillsWithin(n - 1);
      WithinSnoc(SpillYmms(n - 1), 11 * (n - 1), SpillYmm(n - 1, 16 * (n - 1)));
    }
  }

  lemma {:induction false} ReloadsWithin(n: nat)
    requires n <= 16
    ensures Within(ReloadYmms(n), 11 * n)
  {
    if n > 0 {
      ReloadsWithin(n - 1);
      WithinSnoc(ReloadYmms(n - 1), 11 * (n - 1), ReloadYmm(n - 1, 32 + 16 * (n - 1)));
    }
  }

  lemma {:induction false} PushesWithin(rs: seq<Reg>)
    ensures Within(PushAll(rs), 2 * |rs|)
    decreases |rs|
  {
    if rs != [] {
      PushesWithin(rs[..|rs| - 1]);
      WithinSnoc(PushAll(rs[..|rs| - 1]), 2 * |rs| - 2, Push(rs[|rs| - 1]));
    }
  }

  lemma {:induction false} PopsWithin(rs: seq<Reg>)
    ensures Within(PopAll(rs), 2 * |rs|)
    decreases |rs|
  {
    if rs != [] {
      PopsWithin(rs[..|rs| - 1]);
      WithinSnoc(PopAll(rs[..|rs| - 1]), 2 * |rs| - 2, Pop(rs[|rs| - 1]));
    }
  }

  /** A group of sequences stays within the sum of its bounds. */
  lemma FiveWithin(a: seq<Insn>, x: int, b: seq<Insn>, y: int, c: seq<Insn>, z: int, d: seq<Insn>, u: int,
                   e: seq<Insn>, v: int)
    requires Within(a, x) && Within(b, y) && Within(c, z) && Within(d, u) && Within(e, v)
    ensures Within(a + b + c + d + e, x + y + z + u + v)
  {
    WithinConcat(a, x, b, y);
    WithinConcat(a + b, x + y, c, z);
    WithinConcat(a + b + c, x + y + z, d, u);
    WithinConcat(a + b + c + d, x + y + z + u, e, v);
  }

  lemma PrologueWithin(site: nat)
    requires site < 0x1_0000_0000_0000_0000
    ensures Within(Prologue(site), 221)
  {
    PrologueEncodable(site);
    PrologueSize(site);
  }

  lemma PrologueEncodable(site: nat)
    requires site < 0x1_0000_0000_0000_0000
    ensures Within(Prologue(site), 311)
  {
    AnyWithin(Mark(site));
    AnyWithin(Reserve());
    SavesWithin(0);
    AnyWithin(SaveMxcsr());
    PushesWithin(SAVED_REGS);
    AnyWithin(SetFrame());
    FiveWithin(Reserve(), 22, Xmms(), 160, SaveMxcsr(), 22, PushAll(SAVED_REGS), 30, SetFrame(), 44);
    WithinConcat(Mark(site), 33, FrameCode(), 278);
    PrologueIs(site);
  }

  lemma CallWithin(avx: bool, handler: nat)
    requires handler < 0x1_0000_0000_0000_0000
    ensures Within(Align(avx) + Enter(handler) + [CallRax], 231)
  {
    AnyWithin([AndRsp]);
    AnyWithin([SubRsp(256)]);
    SpillsWithin(16);
    WithinConcat([SubRsp(256)], 11, Ymms(), 176);
    WithinConcat([AndRsp], 11, [SubRsp(256)] + Ymms(), 187);
    assert !avx ==> Align(avx) == [AndRsp];
    AnyWithin(Enter(handler));
    AnyWithin([CallRax]);
    WithinConcat(Align(avx), 198, Enter(handler), 22);
    WithinConcat(Align(avx) + Enter(handler), 220, [CallRax], 11);
  }

  lemma LeaveWithin(avx: bool)
    ensures Within(Leave(avx), 187)
  {
    AnyWithin([MovRspRbp]);
    ReloadsWithin(16);
    WithinConcat(YmmsBack(), 176, [MovRspRbp], 11);
    assert !avx ==> Leave(avx) == [MovRspRbp];
  }

  lemma ChooseWithin(gateway: nat)
    requires gateway < 0x1_0000_0000_0000_0000
    ensures Within(Choose(gateway), 55)
  {
    AnyWithin(Choose(gateway));
  }

  lemma RestoreWithin()
    ensures Within(Restore(), 245)
  {
    AnyWithin([Popfq]);
    PopsWithin(RESTORED_REGS);
    WithinConcat([Popfq], 11, PopAll(RESTORED_REGS), 30);
    AnyWithin(MxcsrBack());
    LoadsWithin(16);
    WithinConcat(MxcsrBack(), 22, XmmsBack(), 160);
    WithinConcat(RestoreRegs(), 41, RestoreVectors(), 182);
    AnyWithin(Exit());
    WithinConcat(RestoreRegs() + RestoreVectors(), 223, Exit(), 22);
  }

  lemma Regroup<T>(a: seq<T>, b: seq<T>, c: seq<T>, d: seq<T>, e: seq<T>, f: seq<T>)
    ensures (a + b) + c + (d + e + f) == a + (b + c) + d + e + f == ((a + b) + c + d) + e + f
  {
  }

  /** The program in the order it is emitted. */
  lemma ProgramIs(w: Params)
    ensures Program(w)
         == Prologue(w.site) + (Align(w.avx) + Enter(w.handler) + [CallRax]) + Leave(w.avx) + Choose(w.gateway)
            + Restore()
         == (BeforeCall(w) + [CallRax] + Leave(w.avx)) + Choose(w.gateway) + Restore()
  {
    Regroup(Prologue(w.site), Align(w.avx) + Enter(w.handler), [CallRax], Leave(w.avx), Choose(w.gateway), Restore());
  }

  lemma ProgramWithin(w: Params)
    requires w.site < 0x1_0000_0000_0000_0000 && w.handler < 0x1_0000_0000_0000_0000
    requires w.gateway < 0x1_0000_0000_0000_0000
    ensures Within(Program(w), STUB_CAPACITY)
  {
    PrologueWithin(w.site);
    CallWithin(w.avx, w.handler);
    LeaveWithin(w.avx);
    ChooseWithin(w.gateway);
    RestoreWithin();
    FiveWithin(Prologue(w.site), 221, Align(w.avx) + Enter(w.handler) + [CallRax], 231, Leave(w.avx), 187,
               Choose(w.gateway), 55, Restore(), 245);
    ProgramIs(w);
  }

  /** For 64-bit addresses, the stub decodes to `Program` and nothing else, and fits the space reserved for it. */
  lemma StubReadsBack(w: Params)
    requires w.site < 0x1_0000_0000_0000_0000 && w.handler < 0x1_0000_0000_0000_0000
    requires w.gateway < 0x1_0000_0000_0000_0000
    ensures DecodeAll(DecodeOne, EncodeAll(Program(w))) == Program(w)
    ensures |EncodeAll(Program(w))| <= STUB_CAPACITY
  {
    ProgramWithin(w);
    EncodeSize(Program(w));
    DecodeInvertsEncode(Program(w));
  }

  /** Everything after the prologue `p`; also returns where the unwind data ends. */
  method EmitBody(c: seq<nat>, w: Params, ghost code: seq<Insn> -> seq<nat>, ghost p: seq<Insn>)
    returns (c': seq<nat>, unwindEnd: nat)
    requires Appends(code) && c == code(p)
    ensures var q := p + Align(w.avx) + Enter(w.handler) + [CallRax] + Leave(w.avx);
            c' == code(q + Choose(w.gateway) + Restore()) && unwindEnd == |code(q)|
  {
    c' := EmitCall(c, w, code, p);
    ghost var q := p + Align(w.avx) + Enter(w.handler) + [CallRax];
    c' := EmitLeave(c', w.avx, code, q);
    unwindEnd := |c'|;
    c' := EmitChoice(c', w.gateway, code, q + Leave(w.avx));
    c' := EmitRestore(c', code, q + Leave(w.avx) + Choose(w.gateway));
  }

  /** The stub is the machine code of `Program`, with the codes that describe its prologue. */
  method BuildStub(w: Params) returns (stub: Stub)
    ensures stub.bytes == EncodeAll(Program(w))
    ensures stub.slots == Slots(PROLOGUE_START, FrameCode())
    ensures stub.prologSize == |EncodeAll(Prologue(w.site))| < 256
    ensures Descending(stub.slots, PROLOGUE_START, stub.prologSize)
    ensures stub.frame == RBP
    ensures stub.end == |EncodeAll(BeforeCall(w) + [CallRax] + Leave(w.avx))|
  {
    var c, unwind := EmitPrologue(w.site);
    var prologSize := |c|;
    PrologueSize(w.site);
    CodeAppends();
    var bytes, unwindEnd := EmitBody(c, w, Code(), Prologue(w.site));
    Assoc3(Prologue(w.site), Align(w.avx), Enter(w.handler));
    ProgramIs(w);
    var slots := CollectSlots(unwind);
    EntriesReversed(PROLOGUE_START, FrameCode());
    FrameSize();
    SlotsDescend(PROLOGUE_START, FrameCode());
    stub := Stub(bytes, slots, prologSize, 5, unwindEnd);
  }
}
