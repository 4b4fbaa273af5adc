/**
 A decoder for the x64 instructions the stub is made of. It reads every field of an
 instruction (REX or VEX prefix, opcode, ModRM, SIB, displacement, immediate) as the
 processor does, and only then asks which instruction the fields make: one whose fields
 do not fit is none of the stub's.
 */
module X64Decoder {
  import opened Options
  import opened LittleEndian
  import opened StubMachine

  // ------------------------------------------------------------------ fields

  function At(bs: seq<nat>, k: nat): nat { if k < |bs| then bs[k] else 0 }

  function Field(bs: seq<nat>, k: nat, n: nat): nat { if k + n <= |bs| then Unle(bs[k..k + n]) else 0 }

  function Signed8(b: nat): int { if b < 128 then b else b - 256 }

  function Signed32(v: nat): int { if v < 0x8000_0000 then v else v - 0x1_0000_0000 }

  /** The size of the prefix, operand width, and what it adds to the register numbers. */
  datatype Rex = Rex(size: nat, wide: bool, reg: nat, index: nat, base: nat)

  function RexOf(b: nat): Rex {
    if 0x40 <= b < 0x50 then Rex(1, b / 8 % 2 == 1, b / 4 % 2 * 8, b / 2 % 2 * 8, b % 2 * 8)
    else Rex(0, false, 0, 0, 0)
  }

  /** The second operand: a register, memory at a register plus a displacement, or another form. */
  datatype Operand = Direct(n: nat) | Memory(base: nat, disp: int) | Indexed

  /** ModRM with the SIB byte and the displacement that it calls for. */
  datatype ModRm = ModRm(reg: nat, rm: Operand, size: nat)

  function DispSize(mode: nat): nat { if mode == 1 then 1 else if mode == 2 then 4 else 0 }

  function DispAt(bs: seq<nat>, k: nat, mode: nat): int {
    if mode == 1 then Signed8(At(bs, k)) else if mode == 2 then Signed32(Field(bs, k, 4)) else 0
  }

  function ModRmAt(bs: seq<nat>, k: nat, rex: Rex): ModRm {
    var mode, reg, rm := At(bs, k) / 64, At(bs, k) / 8 % 8 + rex.reg, At(bs, k) % 8;
    if mode == 3 then ModRm(reg, Direct(rm + rex.base), 1)
    else if rm == 4 then
      var index, base := At(bs, k + 1) / 8 % 8 + rex.index, At(bs, k + 1) % 8;
      ModRm(reg, if index != 4 || (mode == 0 && base == 5) then Indexed
                 else Memory(base + rex.base, DispAt(bs, k + 2, mode)), 2 + DispSize(mode))
    else
      ModRm(reg, if mode == 0 && rm == 5 then Indexed else Memory(rm + rex.base, DispAt(bs, k + 1, mode)),
            1 + DispSize(mode))
  }

  /** A three-byte VEX prefix: opcode map, operand width, extra source register, vector length, implied prefix. */
  datatype Vex = Vex(rex: Rex, opcodeMap: nat, source: nat, long: bool, implied: nat)

  function VexOf(b1: nat, b2: nat): Vex {
    Vex(Rex(3, b2 / 128 % 2 == 1, (1 - b1 / 128 % 2) * 8, (1 - b1 / 64 % 2) * 8, (1 - b1 / 32 % 2) * 8),
        b1 % 32, 15 - b2 / 8 % 16, b2 / 4 % 2 == 1, b2 % 4)
  }

  // ------------------------------------------------------------ instructions

  function IfGpr(n: nat, f: Reg -> Insn): Option<Insn> { if n < 16 && n != RSP then Some(f(n)) else None }

  function IfLane(n: nat, f: Lane -> Insn): Option<Insn> { if n < 16 then Some(f(n)) else None }

  function Sized(i: Option<Insn>, size: nat): Option<(Insn, nat)> {
    if i.Some? then Some((i.value, size)) else None
  }

  function DecodeOneByte(bs: seq<nat>, rex: Rex): Option<(Insn, nat)> {
    var k := rex.size;
    var op := At(bs, k);
    if 0x50 <= op < 0x58 then Sized(IfGpr(op - 0x50 + rex.base, (r: Reg) => Push(r)), k + 1)
    else if 0x58 <= op < 0x60 then Sized(IfGpr(op - 0x58 + rex.base, (r: Reg) => Pop(r)), k + 1)
    else if op == 0x9C then Some((Pushfq, k + 1))
    else if op == 0x9D then Some((Popfq, k + 1))
    else if op == 0xFC then Some((Cld, k + 1))
    else if 0xB8 <= op < 0xC0 && rex.wide then
      Sized(IfGpr(op - 0xB8 + rex.base, (r: Reg) => MovImm(r, Field(bs, k + 1, 8))), k + 9)
    else
      var m := ModRmAt(bs, k + 1, rex);
      var end := k + 1 + m.size;
      if op == 0xFF then
        if m.reg == 2 && m.rm == Direct(RAX) then Some((CallRax, end))
        else if m.reg == 4 && m.rm.Memory? && m.rm.base == RSP then Some((JmpMem(m.rm.disp), end))
        else None
      else if !rex.wide then None
      else if op == 0x81 || op == 0x83 || op == 0xC7 then DecodeImmediate(bs, op, m, end)
      else Sized(DecodeMove(op, m), end)
  }

  /** 64-bit instructions with two operands. */
  function DecodeMove(op: nat, m: ModRm): Option<Insn> {
    if op == 0x87 && m.rm == Memory(RSP, 0) then IfGpr(m.reg, (r: Reg) => XchgTop(r))
    else if op == 0x8D && m.reg == RSP && m.rm.Memory? && m.rm.base == RSP then Some(LeaRsp(m.rm.disp))
    else if op == 0x89 && m.reg == RSP && m.rm.Direct? then IfGpr(m.rm.n, (r: Reg) => MovFromRsp(r))
    else if op == 0x89 && m.reg == RBP && m.rm == Direct(RSP) then Some(MovRspRbp)
    else if op == 0x89 && m.reg == RAX && m.rm.Memory? && m.rm.base == RBP && m.rm.disp >= 0 then
      Some(StoreFrame(m.rm.disp))
    else if op == 0x8B && m.reg == RAX && m.rm.Memory? && m.rm.base == RBP && m.rm.disp >= 0 then
      Some(LoadFrame(m.rm.disp))
    else if op == 0x85 && m.reg == RAX && m.rm == Direct(RAX) then Some(TestRax)
    else None
  }

  /** 64-bit instructions with an immediate, sign-extended from 8 or 32 bits, after `end` bytes. */
  function DecodeImmediate(bs: seq<nat>, op: nat, m: ModRm, end: nat): Option<(Insn, nat)> {
    var size := if op == 0x83 then 1 else 4;
    var imm := if op == 0x83 then Signed8(At(bs, end)) else Signed32(Field(bs, end, 4));
    if op == 0xC7 then if m.reg == 0 && m.rm == Memory(RSP, 0) && imm == 0 then Some((ZeroTop, end + size)) else None
    else if m.reg == 4 && m.rm == Direct(RSP) && imm == -16 then Some((AndRsp, end + size))
    else if m.reg == 5 && m.rm == Direct(RSP) && imm >= 0 then Some((SubRsp(imm), end + size))
    else None
  }

  /** The instructions of opcode map 0F. */
  function DecodeTwoByte(bs: seq<nat>, rex: Rex): Option<(Insn, nat)> {
    var op := At(bs, rex.size + 1);
    var m := ModRmAt(bs, rex.size + 2, rex);
    var end := rex.size + 2 + m.size;
    if op == 0x44 then
      if rex.wide && m.reg == RAX && m.rm == Direct(RCX) then Some((CmovzRaxRcx, end)) else None
    else if m.rm != Memory(RSP, 0) then None
    else if op == 0x10 then Sized(IfLane(m.reg, (n: Lane) => LoadXmm(n)), end)
    else if op == 0x11 then Sized(IfLane(m.reg, (n: Lane) => StoreXmm(n)), end)
    else if op == 0xAE && m.reg == 3 then Some((Stmxcsr, end))
    else if op == 0xAE && m.reg == 2 then Some((Ldmxcsr, end))
    else None
  }

  /** The 256-bit instructions of map 0F3A that move the upper half (lane 1) of a vector register. */
  function DecodeVex(bs: seq<nat>): Option<(Insn, nat)> {
    var vex := VexOf(At(bs, 1), At(bs, 2));
    var op, m := At(bs, 3), ModRmAt(bs, 4, vex.rex);
    var lane, end := At(bs, 4 + m.size), 5 + m.size;
    if vex.opcodeMap != 3 || vex.rex.wide || !vex.long || vex.implied != 1 || lane != 1 then None
    else if !m.rm.Memory? || m.rm.base != RSP || m.rm.disp < 0 then None
    else if op == 0x19 && vex.source == 0 then Sized(IfLane(m.reg, (n: Lane) => SpillYmm(n, m.rm.disp)), end)
    else if op == 0x18 && vex.source == m.reg then Sized(IfLane(m.reg, (n: Lane) => ReloadYmm(n, m.rm.disp)), end)
    else None
  }

  /** The first instruction of `bs`, and its length; none if it is not one of the stub's. */
  function DecodeOne(bs: seq<nat>): Option<(Insn, nat)> {
    var rex := RexOf(At(bs, 0));
    if At(bs, 0) == 0xC4 then DecodeVex(bs)
    else if At(bs, rex.size) == 0x0F then DecodeTwoByte(bs, rex)
    else DecodeOneByte(bs, rex)
  }

  /** Reads instruction after instruction with `d`, as long as it can. */
  function DecodeAll(d: seq<nat> -> Option<(Insn, nat)>, bs: seq<nat>): seq<Insn>
    decreases |bs|
  {
    if d(bs).None? then []
    else
      var (i, n) := d(bs).value;
      if n == 0 || n > |bs| then [] else [i] + DecodeAll(d, bs[n..])
  }
}
