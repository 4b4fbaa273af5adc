/**
 A small x64 machine: the instructions the mid-hook stub is made of, their effect
 on registers and memory.

 Memory is used through four operations that read and write 64- and 32-bit
 values. All that is assumed of them is that a read sees the last write at its
 address and no write outside its bytes; `ByteMemoryIsLawful` shows that
 little-endian byte memory is such a memory.
 */
module StubMachine {
  import opened Options

  type Mem = map<int, int>

  const RAX := 0
  const RCX := 1
  const RSP := 4
  const RBP := 5
  const R11 := 11

  /** A general register that is not the stack pointer. */
  type Reg = r: nat | r < 16 && r != RSP witness RAX

  /** A vector register. */
  type Lane = n: nat | n < 16 witness 0

  datatype Insn =
    | Push(r: Reg) | Pop(r: Reg) | Pushfq | Popfq | Cld
    | MovImm(r: Reg, imm: nat)
    | XchgTop(r: Reg)                     // xchg [rsp], r
    | LeaRsp(d: int)                      // lea rsp, [rsp + d]
    | ZeroTop                             // mov qword [rsp], 0
    | StoreXmm(n: Lane) | LoadXmm(n: Lane)  // movups [rsp], xmmN and back
    | Stmxcsr | Ldmxcsr
    | MovFromRsp(r: Reg)
    | MovRspRbp
    | AndRsp                              // and rsp, -16
    | SubRsp(size: nat)
    | SpillYmm(n: Lane, disp: nat)         // vextractf128 [rsp + disp], ymmN, 1
    | ReloadYmm(n: Lane, disp: nat)        // vinsertf128 ymmN, ymmN, [rsp + disp], 1
    | CallRax
    | LoadFrame(disp: nat)                // mov rax, [rbp + disp]
    | StoreFrame(disp: nat)               // mov [rbp + disp], rax
    | TestRax
    | CmovzRaxRcx
    | JmpMem(d: int)                      // jmp [rsp + d]

  /** A 128-bit value: its low and high quadword. */
  datatype Wide = Wide(low: int, high: int)

  /** `regs` is indexed by register number; entry 4 is unused, `rsp` stands for it. `ymm` are the upper halves. */
  datatype State = State(
    rsp: int, regs: seq<int>, flags: int, mxcsr: int, xmm: seq<Wide>, ymm: seq<Wide>, mem: Mem, jump: Option<int>)

  /** The outside world: memory, the flags arithmetic leaves behind, and the called handler. */
  datatype Env = Env(
    read: (Mem, int) -> int,
    write: (Mem, int, int) -> Mem,
    read32: (Mem, int) -> int,
    write32: (Mem, int, int) -> Mem,
    alu: (State, Insn) -> int,
    handler: State -> State)

  predicate Zf(flags: int) { flags / 64 % 2 == 1 }
  predicate Df(flags: int) { flags / 1024 % 2 == 1 }

  ghost predicate LawfulMemory(env: Env) {
    && (forall m: Mem, a: int, v: int {:trigger env.read(env.write(m, a, v), a)} ::
          env.read(env.write(m, a, v), a) == v)
    && (forall m: Mem, a: int, v: int, b: int {:trigger env.read(env.write(m, a, v), b)} ::
          b + 8 <= a || a + 8 <= b ==> env.read(env.write(m, a, v), b) == env.read(m, b))
    && (forall m: Mem, a: int, v: int, b: int {:trigger env.read(env.write32(m, a, v), b)} ::
          b + 8 <= a || a + 4 <= b ==> env.read(env.write32(m, a, v), b) == env.read(m, b))
    && (forall m: Mem, a: int, v: int {:trigger env.read32(env.write32(m, a, v), a)} ::
          env.read32(env.write32(m, a, v), a) == v)
    && (forall m: Mem, a: int, v: int, b: int {:trigger env.read32(env.write(m, a, v), b)} ::
          b + 4 <= a || a + 8 <= b ==> env.read32(env.write(m, a, v), b) == env.read32(m, b))
    && (forall m: Mem, a: int, v: int, b: int {:trigger env.read32(env.write32(m, a, v), b)} ::
          b + 4 <= a || a + 4 <= b ==> env.read32(env.write32(m, a, v), b) == env.read32(m, b))
  }

  /** Arithmetic leaves the direction flag alone, and `test` sets the zero flag. */
  ghost predicate LawfulAlu(env: Env) {
    && (forall s: State, i: Insn {:trigger env.alu(s, i)} :: Df(env.alu(s, i)) == Df(s.flags))
    && (forall s: State {:trigger env.alu(s, TestRax)} :: |s.regs| == 16 ==>
          (Zf(env.alu(s, TestRax)) <==> s.regs[RAX] == 0))
  }

  predicate Shape(s: State) {
    |s.regs| == 16 && |s.xmm| == 16 && |s.ymm| == 16
  }

  function WriteWide(env: Env, m: Mem, a: int, w: Wide): Mem {
    env.write(env.write(m, a, w.low), a + 8, w.high)
  }

  function ReadWide(env: Env, m: Mem, a: int): Wide {
    Wide(env.read(m, a), env.read(m, a + 8))
  }

  /** The whole call: the handler comes back with its return address popped. */
  function Called(env: Env, s: State): (r: State)
    requires Shape(s)
  {
    var r := env.handler(s);
    if Shape(r) then r else s
  }

  function Exec(env: Env, i: Insn, s: State): (r: State)
    requires Shape(s)
    ensures Shape(r)
  {
    match i
    case Push(r) => s.(rsp := s.rsp - 8, mem := env.write(s.mem, s.rsp - 8, s.regs[r]))
    case Pop(r) => s.(rsp := s.rsp + 8, regs := s.regs[r := env.read(s.mem, s.rsp)])
    case Pushfq => s.(rsp := s.rsp - 8, mem := env.write(s.mem, s.rsp - 8, s.flags))
    case Popfq => s.(rsp := s.rsp + 8, flags := env.read(s.mem, s.rsp))
    case Cld => s.(flags := if Df(s.flags) then s.flags - 1024 else s.flags)
    case MovImm(r, v) => s.(regs := s.regs[r := v])
    case XchgTop(r) => s.(regs := s.regs[r := env.read(s.mem, s.rsp)], mem := env.write(s.mem, s.rsp, s.regs[r]))
    case LeaRsp(d) => s.(rsp := s.rsp + d)
    case ZeroTop => s.(mem := env.write(s.mem, s.rsp, 0))
    case StoreXmm(n) => s.(mem := WriteWide(env, s.mem, s.rsp, s.xmm[n]))
    case LoadXmm(n) => s.(xmm := s.xmm[n := ReadWide(env, s.mem, s.rsp)])
    case Stmxcsr => s.(mem := env.write32(s.mem, s.rsp, s.mxcsr))
    case Ldmxcsr => s.(mxcsr := env.read32(s.mem, s.rsp))
    case MovFromRsp(r) => s.(regs := s.regs[r := s.rsp])
    case MovRspRbp => s.(rsp := s.regs[RBP])
    case AndRsp => s.(rsp := s.rsp - s.rsp % 16, flags := env.alu(s, i))
    case SubRsp(d) => s.(rsp := s.rsp - d, flags := env.alu(s, i))
    case SpillYmm(n, disp) => s.(mem := WriteWide(env, s.mem, s.rsp + disp, s.ymm[n]))
    case ReloadYmm(n, disp) => s.(ymm := s.ymm[n := ReadWide(env, s.mem, s.rsp + disp)])
    case CallRax => Called(env, s)
    case LoadFrame(disp) => s.(regs := s.regs[RAX := env.read(s.mem, s.regs[RBP] + disp)])
    case StoreFrame(disp) => s.(mem := env.write(s.mem, s.regs[RBP] + disp, s.regs[RAX]))
    case TestRax => s.(flags := env.alu(s, i))
    case CmovzRaxRcx => if Zf(s.flags) then s.(regs := s.regs[RAX := s.regs[RCX]]) else s
    case JmpMem(d) => s.(jump := Some(env.read(s.mem, s.rsp + d)))
  }

  function Run(env: Env, p: seq<Insn>, s: State): (r: State)
    requires Shape(s)
    ensures Shape(r)
  {
    if p == [] then s else Exec(env, p[|p| - 1], Run(env, p[..|p| - 1], s))
  }

  lemma {:induction false} RunConcat(env: Env, p: seq<Insn>, q: seq<Insn>, s: State)
    requires Shape(s)
    ensures Run(env, p + q, s) == Run(env, q, Run(env, p, s))
    decreases |q|
  {
    if q == [] {
      assert p + q == p;
    } else {
      RunConcat(env, p, q[..|q| - 1], s);
      assert (p + q)[..|p + q| - 1] == p + q[..|q| - 1];
    }
  }

  lemma RunSnoc(env: Env, p: seq<Insn>, i: Insn, s: State)
    requires Shape(s)
    ensures Run(env, p + [i], s) == Exec(env, i, Run(env, p, s))
  {
    assert (p + [i])[..|p|] == p;
  }

  lemma RunSnoc2(env: Env, p: seq<Insn>, i: Insn, j: Insn, s: State)
    requires Shape(s)
    ensures Run(env, p + [i, j], s) == Exec(env, j, Exec(env, i, Run(env, p, s)))
  {
    assert p + [i, j] == (p + [i]) + [j];
    RunSnoc(env, p + [i], j, s);
    RunSnoc(env, p, i, s);
  }

  // ---------------------------------------------- a memory that keeps the laws

  function Cell(m: Mem, a: int): int { if a in m then m[a] else 0 }

  /** Little-endian: each cell takes one byte, the last one whatever is left (one byte too, for a value that fits). */
  function Put(m: Mem, a: int, v: int, n: nat): Mem
    requires n > 0
    decreases n
  {
    if n == 1 then m[a := v] else Put(m[a := v % 256], a + 1, v / 256, n - 1)
  }

  function Get(m: Mem, a: int, n: nat): int
    requires n > 0
    decreases n
  {
    if n == 1 then Cell(m, a) else Cell(m, a) + 256 * Get(m, a + 1, n - 1)
  }

  lemma {:induction false} PutKeepsCell(m: Mem, a: int, v: int, n: nat, b: int)
    requires n > 0 && (b < a || a + n <= b)
    ensures Cell(Put(m, a, v, n), b) == Cell(m, b)
    decreases n
  {
    if n > 1 {
      PutKeepsCell(m[a := v % 256], a + 1, v / 256, n - 1, b);
    }
  }

  lemma {:induction false} PutKeepsGet(m: Mem, a: int, v: int, n: nat, b: int, k: nat)
    requires n > 0 && k > 0 && (b + k <= a || a + n <= b)
    ensures Get(Put(m, a, v, n), b, k) == Get(m, b, k)
    decreases k
  {
    PutKeepsCell(m, a, v, n, b);
    if k > 1 {
      PutKeepsGet(m, a, v, n, b + 1, k - 1);
    }
  }

  lemma {:induction false} GetOfPut(m: Mem, a: int, v: int, n: nat)
    requires n > 0
    ensures Get(Put(m, a, v, n), a, n) == v
    decreases n
  {
    if n > 1 {
      var m1 := m[a := v % 256];
      GetOfPut(m1, a + 1, v / 256, n - 1);
      PutKeepsCell(m1, a + 1, v / 256, n - 1, a);
    }
  }

  /** The laws describe byte memory: there is nothing in them that it does not satisfy. */
  lemma ByteMemoryIsLawful(env: Env)
    requires forall m: Mem, a: int :: env.read(m, a) == Get(m, a, 8)
    requires forall m: Mem, a: int :: env.read32(m, a) == Get(m, a, 4)
    requires forall m: Mem, a: int, v: int :: env.write(m, a, v) == Put(m, a, v, 8)
    requires forall m: Mem, a: int, v: int :: env.write32(m, a, v) == Put(m, a, v, 4)
    ensures LawfulMemory(env)
  {
    forall m: Mem, a: int, v: int ensures Get(Put(m, a, v, 8), a, 8) == v && Get(Put(m, a, v, 4), a, 4) == v {
      GetOfPut(m, a, v, 8);
      GetOfPut(m, a, v, 4);
    }
    forall m: Mem, a: int, v: int, b: int, n: nat, k: nat
      | n > 0 && k > 0 && (b + k <= a || a + n <= b)
      ensures Get(Put(m, a, v, n), b, k) == Get(m, b, k)
    {
      PutKeepsGet(m, a, v, n, b, k);
    }
  }
}
