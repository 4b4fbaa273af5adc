/**
 Relocation of stolen instructions into a trampoline.

 The decoder and the block encoder are contracts. The decoder yields contiguous
 instructions; the encoder lays a block out in order, sends a branch to the
 original address of a block instruction to that instruction's copy, and keeps
 the absolute target of every other branch.

 An instruction either falls through with some effect on the machine, transfers
 control to an encoded address, or transfers control to an address it computes.
 Effects, conditions and computed addresses are arbitrary functions (`Sem`), so
 every result holds for every instruction set that meets the contracts.
 */
module Relocator {
  import opened Options
  import opened LittleEndian

  const U32_MAX := 0xFFFF_FFFF
  const TWO32 := 0x1_0000_0000
  const TWO64 := 0x1_0000_0000_0000_0000

  datatype Result<+T> = Ok(value: T) | Err

  // ---------------------------------------------------------------- machine

  /** Stack pointer, byte memory, and everything else (registers, flags) as one value. */
  datatype State = State(sp: int, mem: map<int, int>, rest: int)

  datatype Sem = Sem(
    effect: (nat, State) -> State,
    taken: (nat, State) -> bool,
    dest: (nat, State) -> nat)

  datatype Kind =
    | Plain(op: nat)                    // falls through
    | Jump(target: nat)                 // jmp rel
    | Branch(op: nat, target: nat)      // jcc, loop, jrcxz
    | Call(target: nat)                 // call rel32
    | Computed(op: nat)                 // ret, jmp r/m
    | ComputedCall(op: nat)             // call r/m
    | PushSigned(imm: nat)              // push imm32, sign-extended to 64 bits
    | StoreHigh(imm: nat)               // mov dword [rsp+4], imm32
    | Invalid

  datatype Instr = Instr(ip: nat, len: nat, kind: Kind) {
    function NextIp(): nat { ip + len }
  }

  /** The four bytes of a 32-bit value, least significant first. */
  function Quad(v: nat): (bs: seq<int>)
    ensures |bs| == 4
  {
    Le(v, 4)
  }

  /** The eight bytes of a 64-bit value: low half first. */
  function Word(v: nat): (bs: seq<int>)
    ensures |bs| == 8
  {
    Quad(v % TWO32) + Quad(v / TWO32 % TWO32)
  }

  function ByteFor(bs: seq<int>, at: int, x: int): int
    requires at <= x < at + |bs|
  {
    bs[x - at]
  }

  function Store(mem: map<int, int>, at: int, bs: seq<int>): map<int, int> {
    mem + map x | at <= x < at + |bs| :: ByteFor(bs, at, x)
  }

  function PushBytes(st: State, bs: seq<int>): State {
    st.(sp := st.sp - |bs|, mem := Store(st.mem, st.sp - |bs|, bs))
  }

  function Push(st: State, v: nat): State {
    PushBytes(st, Word(v))
  }

  function SignExtend(imm: nat): nat {
    if imm % TWO32 < 0x8000_0000 then imm % TWO32 else imm % TWO32 + (TWO64 - TWO32)
  }

  // ------------------------------------------------------------- relocation

  predicate InBlock(decoded: seq<Instr>, ip: nat) {
    exists k :: 0 <= k < |decoded| && decoded[k].ip == ip
  }

  /** A decoded block: contiguous, non-empty instructions filling `[start, end)`. */
  ghost predicate Contiguous(decoded: seq<Instr>, start: nat, end: nat) {
    && (forall k :: 0 <= k < |decoded| ==> decoded[k].len > 0 && !decoded[k].kind.Invalid?)
    && (decoded != [] ==> decoded[0].ip == start)
    && (forall j, k :: 0 <= j < k < |decoded| && k == j + 1 ==> decoded[k].ip == decoded[j].NextIp())
    && end == (if decoded == [] then start else decoded[|decoded| - 1].NextIp())
  }

  datatype Emulation = NotOurs | Rejected | Sequence(code: seq<Instr>)

  /**
   A `call` into the stolen range pushes its original return address and jumps; a
   call into the middle of a stolen instruction is rejected.
   */
  function EmulateCall(instr: Instr, decoded: seq<Instr>, start: nat, end: nat): (r: Emulation)
    ensures r.NotOurs? <==> !(instr.kind.Call? && start <= instr.kind.target <= end)
    ensures r.Rejected? <==>
              instr.kind.Call? && start <= instr.kind.target < end && !InBlock(decoded, instr.kind.target)
    ensures r.Sequence? ==> |r.code| == 3 && r.code[0].ip == instr.ip && r.code[1].ip == r.code[2].ip == 0
  {
    if !instr.kind.Call? || instr.kind.target < start || instr.kind.target > end then NotOurs
    else if instr.kind.target != end && !InBlock(decoded, instr.kind.target) then Rejected
    else
      var ret := instr.NextIp();
      Sequence([Instr(instr.ip, 0, PushSigned(ret % TWO32)),
                Instr(0, 0, StoreHigh(ret / TWO32 % TWO32)),
                Instr(0, 0, Jump(instr.kind.target))])
  }

  /** What the block holds for one instruction. */
  function Emit(instr: Instr, decoded: seq<Instr>, start: nat, end: nat): (code: seq<Instr>)
    ensures |code| == 1 || |code| == 3
    ensures code[0].ip == instr.ip
  {
    var e := EmulateCall(instr, decoded, start, end);
    if e.Sequence? then e.code else [instr]
  }

  function Expand(decoded: seq<Instr>, start: nat, end: nat, n: nat): seq<Instr>
    requires n <= |decoded|
  {
    if n == 0 then [] else Expand(decoded, start, end, n - 1) + Emit(decoded[n - 1], decoded, start, end)
  }

  /** The block handed to the encoder: the expanded instructions and the jump back. */
  function Block(decoded: seq<Instr>, start: nat, end: nat): seq<Instr> {
    Expand(decoded, start, end, |decoded|) + [Instr(0, 0, Jump(end))]
  }

  lemma {:induction false} ExpandGrows(decoded: seq<Instr>, start: nat, end: nat, k: nat, n: nat)
    requires k <= n <= |decoded|
    ensures |Expand(decoded, start, end, k)| <= |Expand(decoded, start, end, n)|
    decreases n
  {
    if k < n { ExpandGrows(decoded, start, end, k, n - 1); }
  }

  /** Where the copy of instruction `k` begins; for `k == |decoded|`, the jump back. */
  function BlockIndex(decoded: seq<Instr>, start: nat, end: nat, k: nat): (at: nat)
    requires k <= |decoded|
    ensures at < |Block(decoded, start, end)|
  {
    ExpandGrows(decoded, start, end, k, |decoded|);
    |Expand(decoded, start, end, k)|
  }

  predicate Relocatable(decoded: seq<Instr>, start: nat, end: nat) {
    forall k :: 0 <= k < |decoded| ==> !EmulateCall(decoded[k], decoded, start, end).Rejected?
  }

  // -------------------------------------------------------------- execution

  /**
   The result of one step: still inside (at instruction `at`), or control has
   left for the absolute address `to`. `ret` is the return address pushed by a
   call that leaves.
   */
  datatype Outcome =
    | Stay(at: nat, st: State)
    | Left(to: nat, st: State, ret: Option<nat>)

  function IndexOfIp(code: seq<Instr>, ip: nat): (r: Option<nat>)
    ensures r.Some? ==> r.value < |code| && code[r.value].ip == ip
    ensures r.None? <==> forall k :: 0 <= k < |code| ==> code[k].ip != ip
  {
    if code == [] then None
    else if code[|code| - 1].ip == ip then Some(|code| - 1)
    else IndexOfIp(code[..|code| - 1], ip)
  }

  /** Control arriving at `ip`: the original code goes on there if the block holds it. */
  function Goto(decoded: seq<Instr>, ip: nat, st: State): Outcome {
    var k := IndexOfIp(decoded, ip);
    if k.Some? then Stay(k.value, st) else Left(ip, st, None)
  }

  /** One step of the original, unpatched instructions. */
  function OriginalStep(sem: Sem, decoded: seq<Instr>, end: nat, i: nat, st: State): Outcome
    requires i < |decoded|
  {
    var next := decoded[i].NextIp();
    match decoded[i].kind
    case Plain(op) => Goto(decoded, next, sem.effect(op, st))
    case Jump(t) => Goto(decoded, t, st)
    case Branch(op, t) => Goto(decoded, if sem.taken(op, st) then t else next, sem.effect(op, st))
    case Call(t) =>
      if InBlock(decoded, t) || t == end then Goto(decoded, t, Push(st, next))
      else Left(t, Push(st, next), Some(next))
    case Computed(op) => Left(sem.dest(op, st), sem.effect(op, st), None)
    case ComputedCall(op) => Left(sem.dest(op, st), Push(sem.effect(op, st), next), Some(next))
    case PushSigned(v) => Goto(decoded, next, Push(st, SignExtend(v)))
    case StoreHigh(v) => Goto(decoded, next, st.(mem := Store(st.mem, st.sp + 4, Quad(v))))
    case Invalid => Left(next, st, None)
  }

  /** A branch in the encoded block: to a copy, if the target is tracked, else to the absolute target. */
  function Follow(block: seq<Instr>, t: nat, st: State): Outcome {
    var j := IndexOfIp(block, t);
    if t != 0 && j.Some? then Stay(j.value, st) else Left(t, st, None)
  }

  /** One step of the encoded block, whose `j`-th instruction was placed at `addr[j]`. */
  function CopyStep(sem: Sem, block: seq<Instr>, addr: seq<nat>, j: nat, st: State): Outcome
    requires j < |block| == |addr|
  {
    var next := if j + 1 < |block| then addr[j + 1] else 0;
    var fall := j + 1;
    match block[j].kind
    case Plain(op) => Stay(fall, sem.effect(op, st))
    case Jump(t) => Follow(block, t, st)
    case Branch(op, t) => if sem.taken(op, st) then Follow(block, t, sem.effect(op, st))
        else Stay(fall, sem.effect(op, st))
    case Call(t) => Left(t, Push(st, next), Some(next))
    case Computed(op) => Left(sem.dest(op, st), sem.effect(op, st), None)
    case ComputedCall(op) => Left(sem.dest(op, st), Push(sem.effect(op, st), next), Some(next))
    case PushSigned(v) => Stay(fall, Push(st, SignExtend(v)))
    case StoreHigh(v) => Stay(fall, st.(mem := Store(st.mem, st.sp + 4, Quad(v))))
    case Invalid => Left(next, st, None)
  }

  function OriginalRun(sem: Sem, decoded: seq<Instr>, end: nat, i: nat, st: State, n: nat): (r: Outcome)
    requires i < |decoded|
    ensures r.Stay? ==> r.at < |decoded|
    decreases n
  {
    if n == 0 then Stay(i, st)
    else
      var r := OriginalStep(sem, decoded, end, i, st);
      if r.Left? then r else OriginalRun(sem, decoded, end, r.at, r.st, n - 1)
  }

  function CopyRun(sem: Sem, block: seq<Instr>, addr: seq<nat>, j: nat, st: State, n: nat): Outcome
    requires j < |block| == |addr|
    decreases n
  {
    if n == 0 then Stay(j, st)
    else
      var r := CopyStep(sem, block, addr, j, st);
      if r.Left? || r.at >= |block| then r else CopyRun(sem, block, addr, r.at, r.st, n - 1)
  }

  // ------------------------------------------------------- the pushed address

  /** What a push writes is the 64-bit value, least significant byte first. */
  lemma PushedBytes(st: State, v: nat, k: nat)
    requires v < TWO64 && k < 8
    ensures Push(st, v).sp == st.sp - 8
    ensures st.sp - 8 + k in Push(st, v).mem && Push(st, v).mem[st.sp - 8 + k] == Le(v, 8)[k]
  {
    WordIsLittleEndian(v);
    assert ByteFor(Word(v), st.sp - 8, st.sp - 8 + k) == Word(v)[k];
  }

  lemma WordIsLittleEndian(v: nat)
    requires v < TWO64
    ensures Word(v) == Le(v, 8)
  {
    SplitLe(v);
    assert v / TWO32 % TWO32 == v / TWO32;
  }

  lemma SplitLe(v: nat)
    requires v < TWO64
    ensures Le(v, 8) == Le(v % TWO32, 4) + Le(v / TWO32, 4)
  {
    UnleConcat(Le(v % TWO32, 4), Le(v / TWO32, 4));
    assert Pow256(4) == TWO32;
    UnleOfLe(v % TWO32, 4);
    UnleOfLe(v / TWO32, 4);
    LeOfUnle(Le(v % TWO32, 4) + Le(v / TWO32, 4));
  }

  lemma StoreOverHigh(mem: map<int, int>, at: int, lo: seq<int>, junk: seq<int>, hi: seq<int>)
    requires |lo| == 4 && |junk| == |hi| == 4
    ensures Store(Store(mem, at, lo + junk), at + 4, hi) == Store(mem, at, lo + hi)
  {
    var both, want := Store(Store(mem, at, lo + junk), at + 4, hi), Store(mem, at, lo + hi);
    assert both.Keys == want.Keys;
    forall x | x in both ensures both[x] == want[x] {
      if at <= x < at + 4 {
        assert ByteFor(lo + junk, at, x) == ByteFor(lo + hi, at, x);
      } else if at + 4 <= x < at + 8 {
        assert ByteFor(hi, at + 4, x) == ByteFor(lo + hi, at, x);
      }
    }
  }

  /** Pushing the sign-extended low half and storing the high half pushes the whole return address. */
  lemma EmulatedPush(st: State, ret: nat)
    requires ret < TWO64
    ensures var low := Push(st, SignExtend(ret % TWO32));
            low.(mem := Store(low.mem, low.sp + 4, Quad(ret / TWO32 % TWO32))) == Push(st, ret)
  {
    var lo := SignExtend(ret % TWO32);
    assert lo % TWO32 == ret % TWO32;
    StoreOverHigh(st.mem, st.sp - 8, Quad(ret % TWO32), Quad(lo / TWO32 % TWO32), Quad(ret / TWO32 % TWO32));
  }
}
