/**
 The machine code of the stub's instructions, and that `X64Decoder` reads it back.
 */
module StubCode {
  import opened Options
  import opened LittleEndian
  import opened StubMachine
  import opened X64Decoder

  /** A signed 8-bit displacement. */
  function Disp8(d: int): nat { d % 256 }

  function RexB(r: Reg): seq<nat> { if r >= 8 then [0x41] else [] }
  function RexR(n: Lane): seq<nat> { if n >= 8 then [0x44] else [] }

  /** `ymm_upper`: a three-byte VEX prefix, the opcode, and `[rsp + disp32]`. */
  function YmmUpper(n: Lane, disp: nat, insert: bool): seq<nat>
  {
    [0xC4, if n < 8 then 0xE3 else 0x63, if insert then (15 - n) * 8 + 0x05 else 0x7D, if insert then 0x18 else 0x19,
     0x84 + n % 8 * 8, 0x24] + Le(disp, 4) + [0x01]
  }

  function Encode(i: Insn): seq<nat>
  {
    match i
    case Push(r) => RexB(r) + [0x50 + r % 8]
    case Pop(r) => RexB(r) + [0x58 + r % 8]
    case Pushfq => [0x9C]
    case Popfq => [0x9D]
    case Cld => [0xFC]
    case MovImm(r, v) => [if r >= 8 then 0x49 else 0x48, 0xB8 + r % 8] + Le(v, 8)
    case XchgTop(r) => [if r >= 8 then 0x4C else 0x48, 0x87, 0x04 + r % 8 * 8, 0x24]
    case LeaRsp(d) => [0x48, 0x8D, 0x64, 0x24, Disp8(d)]
    case ZeroTop => [0x48, 0xC7, 0x04, 0x24, 0, 0, 0, 0]
    case StoreXmm(n) => RexR(n) + [0x0F, 0x11, 0x04 + n % 8 * 8, 0x24]
    case LoadXmm(n) => RexR(n) + [0x0F, 0x10, 0x04 + n % 8 * 8, 0x24]
    case Stmxcsr => [0x0F, 0xAE, 0x1C, 0x24]
    case Ldmxcsr => [0x0F, 0xAE, 0x14, 0x24]
    case MovFromRsp(r) => [if r >= 8 then 0x49 else 0x48, 0x89, 0xE0 + r % 8]
    case MovRspRbp => [0x48, 0x89, 0xEC]
    case AndRsp => [0x48, 0x83, 0xE4, 0xF0]
    case SubRsp(n) => if n < 128 then [0x48, 0x83, 0xEC, n] else [0x48, 0x81, 0xEC] + Le(n, 4)
    case SpillYmm(n, disp) => YmmUpper(n, disp, false)
    case ReloadYmm(n, disp) => YmmUpper(n, disp, true)
    case CallRax => [0xFF, 0xD0]
    case LoadFrame(disp) => [0x48, 0x8B, 0x85] + Le(disp, 4)
    case StoreFrame(disp) => [0x48, 0x89, 0x85] + Le(disp, 4)
    case TestRax => [0x48, 0x85, 0xC0]
    case CmovzRaxRcx => [0x48, 0x0F, 0x44, 0xC1]
    case JmpMem(d) => [0xFF, 0x64, 0x24, Disp8(d)]
  }

  function Flat(f: Insn -> seq<nat>, p: seq<Insn>): seq<nat> {
    if p == [] then [] else Flat(f, p[..|p| - 1]) + f(p[|p| - 1])
  }

  function EncodeAll(p: seq<Insn>): seq<nat> { Flat(Encode, p) }

  lemma EncodeSnoc(p: seq<Insn>, i: Insn)
    ensures EncodeAll(p + [i]) == EncodeAll(p) + Encode(i)
  {
    assert (p + [i])[..|p|] == p;
  }

  lemma {:induction false} FlatConcat(f: Insn -> seq<nat>, p: seq<Insn>, q: seq<Insn>)
    ensures Flat(f, p + q) == Flat(f, p) + Flat(f, q)
    decreases |q|
  {
    if q == [] {
      assert p + q == p;
    } else {
      FlatConcat(f, p, q[..|q| - 1]);
      assert (p + q)[..|p + q| - 1] == p + q[..|q| - 1];
    }
  }

  // ------------------------------------------------------------------- sizes

  function Len(i: Insn): nat {
    match i
    case Push(r) => if r >= 8 then 2 else 1
    case Pop(r) => if r >= 8 then 2 else 1
    case Pushfq => 1
    case Popfq => 1
    case Cld => 1
    case MovImm(_, _) => 10
    case LeaRsp(_) => 5
    case ZeroTop => 8
    case StoreXmm(n) => if n >= 8 then 5 else 4
    case LoadXmm(n) => if n >= 8 then 5 else 4
    case MovFromRsp(_) => 3
    case MovRspRbp => 3
    case SubRsp(n) => if n < 128 then 4 else 7
    case SpillYmm(_, _) => 11
    case ReloadYmm(_, _) => 11
    case CallRax => 2
    case LoadFrame(_) => 7
    case StoreFrame(_) => 7
    case TestRax => 3
    case _ => 4
  }

  function Size(p: seq<Insn>): nat { if p == [] then 0 else Size(p[..|p| - 1]) + Len(p[|p| - 1]) }

  lemma SizeSnoc(p: seq<Insn>, i: Insn)
    ensures Size(p + [i]) == Size(p) + Len(i)
  {
    assert (p + [i])[..|p|] == p;
  }

  lemma SizeSnoc2(p: seq<Insn>, i: Insn, j: Insn)
    ensures Size(p + [i, j]) == Size(p) + Len(i) + Len(j)
  {
    assert p + [i, j] == (p + [i]) + [j];
    SizeSnoc(p, i);
    SizeSnoc(p + [i], j);
  }

  lemma {:induction false} SizeConcat(p: seq<Insn>, q: seq<Insn>)
    ensures Size(p + q) == Size(p) + Size(q)
    decreases |q|
  {
    if q == [] {
      assert p + q == p;
    } else {
      var front, i := q[..|q| - 1], q[|q| - 1];
      SizeConcat(p, front);
      assert p + q == (p + front) + [i];
      SizeSnoc(p + front, i);
    }
  }

  lemma EncodeLen(i: Insn)
    ensures |Encode(i)| == Len(i) > 0
  {
  }

  /** The length of the code. */
  lemma {:induction false} EncodeSize(p: seq<Insn>)
    ensures |EncodeAll(p)| == Size(p)
    decreases |p|
  {
    if p != [] {
      var front, i := p[..|p| - 1], p[|p| - 1];
      EncodeSize(front);
      EncodeLen(i);
      assert p == front + [i];
      EncodeSnoc(front, i);
    }
  }

  // ---------------------------------------------------------------- decoding

  /** Operands that fit the encoding's fields. */
  predicate Encodable(i: Insn) {
    match i
    case MovImm(_, v) => v < 0x1_0000_0000_0000_0000
    case LeaRsp(d) => -128 <= d < 128
    case JmpMem(d) => -128 <= d < 128
    case SubRsp(n) => n < 0x8000_0000
    case SpillYmm(_, disp) => disp < 0x8000_0000
    case ReloadYmm(_, disp) => disp < 0x8000_0000
    case LoadFrame(disp) => disp < 0x8000_0000
    case StoreFrame(disp) => disp < 0x8000_0000
    case _ => true
  }

  lemma FieldOfLe(a: seq<nat>, v: nat, n: nat, rest: seq<nat>)
    requires v < Pow256(n)
    ensures Field(a + Le(v, n) + rest, |a|, n) == v
  {
    assert (a + Le(v, n) + rest)[|a|..|a| + n] == Le(v, n);
    UnleOfLe(v, n);
  }

  lemma DecodesImm(r: Reg, v: nat, rest: seq<nat>)
    requires Encodable(MovImm(r, v))
    ensures DecodeOne(Encode(MovImm(r, v)) + rest) == Some((MovImm(r, v), |Encode(MovImm(r, v))|))
  {
    assert Pow256(8) == 0x1_0000_0000_0000_0000;
    FieldOfLe([if r >= 8 then 0x49 else 0x48, 0xB8 + r % 8], v, 8, rest);
  }

  lemma DecodesDisp(i: Insn, rest: seq<nat>)
    requires Encodable(i) && (i.LoadFrame? || i.StoreFrame? || (i.SubRsp? && i.size >= 128))
    ensures DecodeOne(Encode(i) + rest) == Some((i, |Encode(i)|))
  {
    assert Pow256(4) == 0x1_0000_0000;
    match i
    case LoadFrame(disp) => FieldOfLe([0x48, 0x8B, 0x85], disp, 4, rest);
    case StoreFrame(disp) => FieldOfLe([0x48, 0x89, 0x85], disp, 4, rest);
    case SubRsp(n) => FieldOfLe([0x48, 0x81, 0xEC], n, 4, rest);
  }

  /** ModRM and SIB for the top of the stack. */
  lemma TopOperand(bs: seq<nat>, k: nat, rex: Rex, low: nat)
    requires low < 8 && At(bs, k) == 0x04 + low * 8 && At(bs, k + 1) == 0x24 && rex.index == rex.base == 0
    ensures ModRmAt(bs, k, rex) == ModRm(low + rex.reg, Memory(RSP, 0), 2)
  {
  }

  /** ModRM and SIB for the stack pointer and a 32-bit displacement. */
  lemma StackOperand(bs: seq<nat>, k: nat, rex: Rex, low: nat, disp: nat)
    requires low < 8 && At(bs, k) == 0x84 + low * 8 && At(bs, k + 1) == 0x24 && rex.index == rex.base == 0
    requires Field(bs, k + 2, 4) == disp < 0x8000_0000
    ensures ModRmAt(bs, k, rex) == ModRm(low + rex.reg, Memory(RSP, disp), 6)
  {
  }

  /** The VEX prefix names a 256-bit operation of map 0F3A with prefix 66, and for an insert the source register. */
  lemma VexFields(n: Lane, disp: nat, insert: bool)
    ensures var bs := YmmUpper(n, disp, insert);
            VexOf(At(bs, 1), At(bs, 2))
            == Vex(Rex(3, false, if n < 8 then 0 else 8, 0, 0), 3, if insert then n else 0, true, 1)
  {
  }

  /** What the code of a spill or a reload says: which vector register, which lane, where on the stack. */
  lemma YmmFields(n: Lane, disp: nat, insert: bool, rest: seq<nat>)
    requires disp < 0x8000_0000
    ensures var bs := Encode(if insert then ReloadYmm(n, disp) else SpillYmm(n, disp)) + rest;
            var vex := VexOf(At(bs, 1), At(bs, 2));
            && At(bs, 0) == 0xC4 && At(bs, 3) == (if insert then 0x18 else 0x19) && At(bs, 10) == 1
            && vex == Vex(Rex(3, false, if n < 8 then 0 else 8, 0, 0), 3, if insert then n else 0, true, 1)
            && ModRmAt(bs, 4, vex.rex) == ModRm(n, Memory(RSP, disp), 6)
  {
    assert Pow256(4) == 0x1_0000_0000;
    var code := YmmUpper(n, disp, insert);
    var bs := code + rest;
    VexFields(n, disp, insert);
    FieldOfLe(code[..6], disp, 4, [0x01] + rest);
    assert bs == code[..6] + Le(disp, 4) + ([0x01] + rest);
    StackOperand(bs, 4, VexOf(At(bs, 1), At(bs, 2)).rex, n % 8, disp);
  }

  lemma DecodesYmm(n: Lane, disp: nat, insert: bool, rest: seq<nat>)
    requires disp < 0x8000_0000
    ensures DecodeOne(YmmUpper(n, disp, insert) + rest)
         == Some((if insert then ReloadYmm(n, disp) else SpillYmm(n, disp), |YmmUpper(n, disp, insert)|))
  {
    YmmFields(n, disp, insert, rest);
  }

  /** An SSE move of the low or, with REX.R, the high eight registers. */
  lemma DecodesSse(i: Insn, n: Lane, rest: seq<nat>)
    requires i == StoreXmm(n) || i == LoadXmm(n)
    ensures DecodeOne(Encode(i) + rest) == Some((i, |Encode(i)|))
  {
    SseBytes(Encode(i), RexR(n), if i.StoreXmm? then 0x11 else 0x10, n % 8, rest);
  }

  lemma SseBytes(code: seq<nat>, prefix: seq<nat>, op: nat, low: nat, rest: seq<nat>)
    requires (prefix == [] || prefix == [0x44]) && (op == 0x10 || op == 0x11) && low < 8
    requires code == prefix + [0x0F, op, 0x04 + low * 8, 0x24]
    ensures var n := low + 8 * |prefix|;
            DecodeOne(code + rest) == Some((if op == 0x11 then StoreXmm(n) else LoadXmm(n), |prefix| + 4))
  {
    var bs := code + rest;
    TopOperand(bs, |prefix| + 2, RexOf(bs[0]), low);
  }

  lemma DecodesReg(i: Insn, r: Reg, rest: seq<nat>)
    requires i == Push(r) || i == Pop(r)
    ensures DecodeOne(Encode(i) + rest) == Some((i, |Encode(i)|))
  {
    assert Encode(i) + rest == RexB(r) + ([(if i.Push? then 0x50 else 0x58) + r % 8] + rest);
  }

  lemma DecodesXchg(r: Reg, rest: seq<nat>)
    ensures DecodeOne(Encode(XchgTop(r)) + rest) == Some((XchgTop(r), 4))
  {
    var bs := Encode(XchgTop(r)) + rest;
    TopOperand(bs, 2, RexOf(bs[0]), r % 8);
  }

  lemma DecodesMove(r: Reg, rest: seq<nat>)
    ensures DecodeOne(Encode(MovFromRsp(r)) + rest) == Some((MovFromRsp(r), 3))
  {
  }

  lemma DecodesLea(d: int, rest: seq<nat>)
    requires Encodable(LeaRsp(d))
    ensures DecodeOne(Encode(LeaRsp(d)) + rest) == Some((LeaRsp(d), 5))
  {
  }

  lemma DecodesJmp(d: int, rest: seq<nat>)
    requires Encodable(JmpMem(d))
    ensures DecodeOne(Encode(JmpMem(d)) + rest) == Some((JmpMem(d), 4))
  {
  }

  lemma DecodesMxcsr(i: Insn, rest: seq<nat>)
    requires i.Stmxcsr? || i.Ldmxcsr?
    ensures DecodeOne(Encode(i) + rest) == Some((i, |Encode(i)|))
  {
    TopOperand(Encode(i) + rest, 2, RexOf(0x0F), if i.Stmxcsr? then 3 else 2);
  }

  lemma DecodesZero(rest: seq<nat>)
    ensures DecodeOne(Encode(ZeroTop) + rest) == Some((ZeroTop, 8))
  {
    assert Le(0, 4) == [0, 0, 0, 0] && Pow256(4) > 0;
    var bs := Encode(ZeroTop) + rest;
    assert bs == [0x48, 0xC7, 0x04, 0x24] + Le(0, 4) + rest;
    FieldOfLe([0x48, 0xC7, 0x04, 0x24], 0, 4, rest);
    TopOperand(bs, 2, RexOf(0x48), 0);
  }

  lemma DecodesNarrow(i: Insn, rest: seq<nat>)
    requires i.Pushfq? || i.Popfq? || i.Cld? || i.CallRax?
    ensures DecodeOne(Encode(i) + rest) == Some((i, |Encode(i)|))
  {
  }

  lemma DecodesWide(i: Insn, rest: seq<nat>)
    requires i.MovRspRbp? || i.AndRsp? || (i.SubRsp? && i.size < 128) || i.TestRax? || i.CmovzRaxRcx?
    ensures DecodeOne(Encode(i) + rest) == Some((i, |Encode(i)|))
  {
  }

  /** The first instruction of the code is the one that was encoded, whatever follows it. */
  lemma DecodesFirst(i: Insn, rest: seq<nat>)
    requires Encodable(i)
    ensures |Encode(i)| > 0 && DecodeOne(Encode(i) + rest) == Some((i, |Encode(i)|))
  {
    match i {
      case MovImm(r, v) => DecodesImm(r, v, rest);
      case SpillYmm(n, disp) => DecodesYmm(n, disp, false, rest);
      case ReloadYmm(n, disp) => DecodesYmm(n, disp, true, rest);
      case StoreXmm(n) => DecodesSse(i, n, rest);
      case LoadXmm(n) => DecodesSse(i, n, rest);
      case Push(r) => DecodesReg(i, r, rest);
      case Pop(r) => DecodesReg(i, r, rest);
      case XchgTop(r) => DecodesXchg(r, rest);
      case MovFromRsp(r) => DecodesMove(r, rest);
      case ZeroTop => DecodesZero(rest);
      case LeaRsp(d) => DecodesLea(d, rest);
      case JmpMem(d) => DecodesJmp(d, rest);
      case LoadFrame(_) => DecodesDisp(i, rest);
      case StoreFrame(_) => DecodesDisp(i, rest);
      case SubRsp(n) => if n < 128 { DecodesWide(i, rest); } else { DecodesDisp(i, rest); }
      case _ =>
        if i.Stmxcsr? || i.Ldmxcsr? { DecodesMxcsr(i, rest); }
        else if i.Pushfq? || i.Popfq? || i.Cld? || i.CallRax? { DecodesNarrow(i, rest); }
        else { DecodesWide(i, rest); }
    }
  }

  ghost predicate Reads(d: seq<nat> -> Option<(Insn, nat)>, f: Insn -> seq<nat>, i: Insn, rest: seq<nat>) {
    Encodable(i) ==> |f(i)| > 0 && d(f(i) + rest) == Some((i, |f(i)|))
  }

  ghost predicate Inverts(d: seq<nat> -> Option<(Insn, nat)>, f: Insn -> seq<nat>) {
    forall i: Insn, rest: seq<nat> :: Reads(d, f, i, rest)
  }

  lemma {:induction false} DecodeAllInverts(d: seq<nat> -> Option<(Insn, nat)>, f: Insn -> seq<nat>, p: seq<Insn>)
    requires Inverts(d, f) && forall k :: 0 <= k < |p| ==> Encodable(p[k])
    requires d([]).None? || d([]).value.1 > 0
    ensures DecodeAll(d, Flat(f, p)) == p
    decreases |p|
  {
    if p != [] {
      var i, q := p[0], p[1..];
      DecodeAllInverts(d, f, q);
      assert p == [i] + q;
      FlatConcat(f, [i], q);
      assert Flat(f, [i]) == f(i);
      assert Reads(d, f, i, Flat(f, q));
      assert (f(i) + Flat(f, q))[|f(i)|..] == Flat(f, q);
    }
  }

  /** The stub's machine code reads back as the program it was made from. */
  lemma DecodeInvertsEncode(p: seq<Insn>)
    requires forall k :: 0 <= k < |p| ==> Encodable(p[k])
    ensures DecodeAll(DecodeOne, EncodeAll(p)) == p
  {
    var d: seq<nat> -> Option<(Insn, nat)>, f: Insn -> seq<nat> := DecodeOne, Encode;
    forall i: Insn, rest: seq<nat> ensures Reads(d, f, i, rest) {
      if Encodable(i) {
        DecodesFirst(i, rest);
      }
    }
    DecodeAllInverts(d, f, p);
  }
}
