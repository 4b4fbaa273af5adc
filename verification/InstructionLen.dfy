/**
 How many whole instructions a patch must cover (`get_instruction_len`), and
 which code it may cover without running into the next function.
 */
module InstructionLen {
  import opened Options

  datatype Flow =
    | Next | UnconditionalBranch | IndirectBranch | ConditionalBranch
    | Return | Call | IndirectCall | Interrupt | Exception

  /** A decoded instruction: `fastFail` is `int 29h`, `padding` is `int3` or `nop`. */
  datatype Insn = Insn(len: nat, valid: bool, flow: Flow, nearBranch: bool, target: nat, fastFail: bool, padding: bool)

  const MAX_INSTRUCTION := 15

  /** Execution never falls through; `int3` is deliberately not a terminator. */
  predicate EndsFunction(i: Insn) {
    match i.flow
    case Return | UnconditionalBranch | IndirectBranch | Exception => true
    case Interrupt => i.fastFail
    case _ => false
  }

  predicate IsConditionalJump(i: Insn) {
    i.flow.ConditionalBranch? && i.nearBranch
  }

  /** Where control can go when an instruction completes: past it, to its operand, out of the function, nowhere. */
  datatype Way = Past | To(target: nat) | Elsewhere

  function Ways(i: Insn): set<Way> {
    match i.flow
    case Next => {Past}
    case Call => {Past}               // the callee returns
    case IndirectCall => {Past}
    case UnconditionalBranch => {To(i.target)}
    case IndirectBranch => {Elsewhere}
    case ConditionalBranch => if i.nearBranch then {Past, To(i.target)} else {Past, Elsewhere}
    case Return => {Elsewhere}
    case Interrupt => if i.fastFail then {} else {Past}
    case Exception => {}
  }

  lemma EndsIfNoWayPast(i: Insn)
    ensures EndsFunction(i) <==> Past !in Ways(i)
    ensures IsConditionalJump(i) <==> Past in Ways(i) && To(i.target) in Ways(i)
  {
  }

  /** The decoder over a window of `window` bytes: what does not fit is invalid. */
  ghost predicate DecoderContract(decode: nat -> Insn, window: nat) {
    forall off: nat :: off < window ==>
      && 1 <= decode(off).len <= MAX_INSTRUCTION
      && (decode(off).valid ==> off + decode(off).len <= window)
  }

  /** Offset of the `k`-th instruction. */
  function Offset(decode: nat -> Insn, k: nat): nat {
    if k == 0 then 0 else Offset(decode, k - 1) + decode(Offset(decode, k - 1)).len
  }

  function At(decode: nat -> Insn, k: nat): Insn {
    decode(Offset(decode, k))
  }

  function Min(a: nat, b: nat): nat { if a <= b then a else b }

  function Window(minSize: nat, readable: nat): nat {
    Min(minSize + MAX_INSTRUCTION, readable)
  }

  /** The window holds every instruction that starts in the first `minSize` readable bytes, and no unreadable one. */
  lemma WindowSuffices(minSize: nat, readable: nat, off: nat, len: nat)
    requires minSize <= readable
    ensures off < minSize && len <= MAX_INSTRUCTION && off + len <= readable ==> off + len <= Window(minSize, readable)
    ensures minSize <= Window(minSize, readable) <= readable
  {
  }

  /** The conditional jump `c` lands past instruction `t`, still inside the window. */
  predicate JumpsOver(decode: nat -> Insn, address: nat, window: nat, c: nat, t: nat) {
    && IsConditionalJump(At(decode, c))
    && address + Offset(decode, t + 1) <= At(decode, c).target < address + window
  }

  /** Instruction `t` ends the function: no earlier conditional jump goes past it. */
  predicate Terminates(decode: nat -> Insn, address: nat, window: nat, t: nat) {
    EndsFunction(At(decode, t)) && forall c :: 0 <= c <= t ==> !JumpsOver(decode, address, window, c, t)
  }

  /** Instruction `j` may be patched over. */
  predicate Coverable(decode: nat -> Insn, address: nat, window: nat, j: nat) {
    && At(decode, j).valid
    && (At(decode, j).padding || forall t :: 0 <= t < j ==> !Terminates(decode, address, window, t))
  }

  /** The first `k` instructions are the shortest run covering `minSize` bytes, and all may be covered. */
  predicate Covers(decode: nat -> Insn, address: nat, window: nat, minSize: nat, k: nat) {
    && 0 < k && Offset(decode, k - 1) < minSize <= Offset(decode, k)
    && forall j :: 0 <= j < k ==> Coverable(decode, address, window, j)
  }

  predicate Ended(decode: nat -> Insn, address: nat, window: nat, k: nat) {
    exists t :: 0 <= t < k && Terminates(decode, address, window, t)
  }

  predicate Counts(decode: nat -> Insn, address: nat, window: nat, c: nat) {
    IsConditionalJump(At(decode, c)) && At(decode, c).target < address + window
  }

  /** `reach` is the furthest target of the first `k` instructions' conditional jumps into the window. */
  ghost predicate Furthest(decode: nat -> Insn, address: nat, window: nat, k: nat, reach: nat) {
    && (forall c :: 0 <= c < k && Counts(decode, address, window, c) ==> At(decode, c).target <= reach)
    && (reach == 0 || exists c :: 0 <= c < k && Counts(decode, address, window, c) && At(decode, c).target == reach)
  }

  lemma FurthestDecides(decode: nat -> Insn, address: nat, window: nat, k: nat, reach: nat)
    requires Furthest(decode, address, window, k + 1, reach) && Offset(decode, k + 1) > 0
    ensures Terminates(decode, address, window, k)
            <==> EndsFunction(At(decode, k)) && reach < address + Offset(decode, k + 1)
  {
    if reach >= address + Offset(decode, k + 1) {
      var c :| 0 <= c < k + 1 && Counts(decode, address, window, c) && At(decode, c).target == reach;
      assert JumpsOver(decode, address, window, c, k);
    } else {
      forall c | 0 <= c <= k ensures !JumpsOver(decode, address, window, c, k) {
        if JumpsOver(decode, address, window, c, k) { assert Counts(decode, address, window, c); }
      }
    }
  }

  /** One more instruction: how the function's end and the furthest target move on. */
  lemma Advance(decode: nat -> Insn, address: nat, window: nat, k: nat, reach: nat)
    requires Furthest(decode, address, window, k, reach) && Offset(decode, k + 1) > 0
    ensures var insn := At(decode, k);
            var reach' := if Counts(decode, address, window, k) && reach < insn.target then insn.target else reach;
            && Furthest(decode, address, window, k + 1, reach')
            && (Ended(decode, address, window, k + 1) <==>
                  || Ended(decode, address, window, k)
                  || (EndsFunction(insn) && reach' < address + Offset(decode, k + 1)))
  {
    var insn := At(decode, k);
    var reach' := if Counts(decode, address, window, k) && reach < insn.target then insn.target else reach;
    assert Furthest(decode, address, window, k + 1, reach');
    FurthestDecides(decode, address, window, k, reach');
    assert Terminates(decode, address, window, k) ==> Ended(decode, address, window, k + 1);
  }

  /** The covered prefix: whole, coverable instructions that do not reach `minSize` bytes yet. */
  ghost predicate Prefix(decode: nat -> Insn, address: nat, window: nat, k: nat) {
    && (forall j: nat :: j <= k ==> Offset(decode, j) <= Offset(decode, k))
    && (forall j :: 0 <= j < k ==> Coverable(decode, address, window, j))
  }

  lemma PrefixGrows(decode: nat -> Insn, address: nat, window: nat, k: nat)
    requires Prefix(decode, address, window, k)
    requires At(decode, k).valid && (At(decode, k).padding || !Ended(decode, address, window, k))
    ensures Prefix(decode, address, window, k + 1)
  {
  }

  lemma PrefixStops(decode: nat -> Insn, address: nat, window: nat, minSize: nat, k: nat)
    requires Prefix(decode, address, window, k) && Offset(decode, k) < minSize
    requires !At(decode, k).valid || (!At(decode, k).padding && Ended(decode, address, window, k))
    ensures forall n: nat :: !Covers(decode, address, window, minSize, n)
  {
    assert !Coverable(decode, address, window, k);
    NothingCovers(decode, address, window, minSize, k);
  }

  /** Control gets past instruction `t`, or some instruction up to it can go on or jump over it inside the window. */
  ghost predicate Passable(decode: nat -> Insn, address: nat, window: nat, t: nat) {
    Past in Ways(At(decode, t)) ||
    exists c, to: nat ::
      && 0 <= c <= t && {Past, To(to)} <= Ways(At(decode, c))
      && address + Offset(decode, t + 1) <= to < address + window
  }

  /** An instruction may be covered exactly if it is padding or every instruction before it can be passed. */
  lemma CoverableIff(decode: nat -> Insn, address: nat, window: nat, j: nat)
    ensures Coverable(decode, address, window, j)
            <==> At(decode, j).valid
                 && (At(decode, j).padding || forall t :: 0 <= t < j ==> Passable(decode, address, window, t))
  {
    forall t: nat ensures Passable(decode, address, window, t) <==> !Terminates(decode, address, window, t) {
      PassableIff(decode, address, window, t);
    }
  }

  lemma PassableIff(decode: nat -> Insn, address: nat, window: nat, t: nat)
    ensures Passable(decode, address, window, t) <==> !Terminates(decode, address, window, t)
  {
    EndsIfNoWayPast(At(decode, t));
    forall c: nat ensures JumpsOver(decode, address, window, c, t) <==>
        {Past, To(At(decode, c).target)} <= Ways(At(decode, c)) &&
        address + Offset(decode, t + 1) <= At(decode, c).target < address + window
    {
      EndsIfNoWayPast(At(decode, c));
    }
    if Passable(decode, address, window, t) && Past !in Ways(At(decode, t)) {
      var c, to: nat :| 0 <= c <= t && {Past, To(to)} <= Ways(At(decode, c)) &&
        address + Offset(decode, t + 1) <= to < address + window;
      assert To(to) in Ways(At(decode, c)) && to == At(decode, c).target;
      assert JumpsOver(decode, address, window, c, t);
    }
    if !Terminates(decode, address, window, t) && EndsFunction(At(decode, t)) {
      var c :| 0 <= c <= t && JumpsOver(decode, address, window, c, t);
    }
  }

  /**
   Succeeds with `n` exactly when some run of coverable instructions reaches
   `minSize` bytes inside the readable window; `n` is then its length.
   */
  method GetInstructionLen(decode: nat -> Insn, address: nat, minSize: nat, readable: nat) returns (r: Option<nat>)
    requires DecoderContract(decode, Window(minSize, readable))
    ensures r.Some? ==>
              && (exists k: nat ::
                    Covers(decode, address, Window(minSize, readable), minSize, k) && r.value == Offset(decode, k))
              && minSize <= r.value <= minSize + MAX_INSTRUCTION - 1 && r.value <= readable
    ensures r.None? ==> readable == 0 || readable < minSize
                        || forall k: nat :: !Covers(decode, address, Window(minSize, readable), minSize, k)
    ensures readable == 0 || readable < minSize ==> r.None?
  {
    if readable == 0 || readable < minSize {
      return None;
    }
    var window := Window(minSize, readable);
    var total: nat, branchReach: nat, functionEnded := 0, 0, false;
    ghost var k: nat := 0;
    while total < window && total < minSize
      invariant total == Offset(decode, k) && total <= window
      invariant 0 < minSize ==> total < minSize
      invariant Prefix(decode, address, window, k)
      invariant functionEnded <==> Ended(decode, address, window, k)
      invariant Furthest(decode, address, window, k, branchReach)
      decreases window - total
    {
      var insn := decode(total);
      if !insn.valid || (functionEnded && !insn.padding) {
        PrefixStops(decode, address, window, minSize, k);
        return None;
      }
      PrefixGrows(decode, address, window, k);
      total := total + insn.len;
      assert total == Offset(decode, k + 1);
      if total >= minSize {
        assert Covers(decode, address, window, minSize, k + 1);
        return Some(total);
      }
      Advance(decode, address, window, k, branchReach);
      if IsConditionalJump(insn) && insn.target < address + window && branchReach < insn.target {
        branchReach := insn.target;
      }
      if EndsFunction(insn) && branchReach < address + total {
        functionEnded := true;
      }
      k := k + 1;
    }
    return None;
  }

  lemma NothingCovers(decode: nat -> Insn, address: nat, window: nat, minSize: nat, k: nat)
    requires !Coverable(decode, address, window, k)
    requires Offset(decode, k) < minSize && forall j: nat :: j <= k ==> Offset(decode, j) <= Offset(decode, k)
    ensures forall n: nat :: !Covers(decode, address, window, minSize, n)
  {
    forall n: nat | n > k ensures !Covers(decode, address, window, minSize, n) {
      assert 0 <= k < n;
    }
  }
}
