/**
 Following jump thunks to the code behind them: bounded, cycle-safe, and settled in
 one go unless the bound is exhausted.
 */
module Thunks {
  import opened Options

  const MAX_JUMP_FOLLOWS := 32
  const TWO64 := 0x1_0000_0000_0000_0000

  // ---------------------------------------------------------- one jump stub

  /** Fixed process memory: which ranges can be read, and the bytes there. */
  datatype Memory = Memory(readable: (nat, nat) -> bool, byteAt: nat -> nat)

  predicate CanRead(m: Memory, a: nat, n: nat) { a != 0 && m.readable(a, n) }

  function Le(m: Memory, a: nat, n: nat): nat
    decreases n
  {
    if n == 0 then 0 else m.byteAt(a) + 256 * Le(m, a + 1, n - 1)
  }

  function ReadLe(m: Memory, a: nat, n: nat): Option<nat> { if CanRead(m, a, n) then Some(Le(m, a, n)) else None }

  function Signed(v: nat, bits: nat): int { if v < bits / 2 then v else v - bits }

  /** An address moved by a signed displacement. */
  function Offset(a: nat, d: int): nat { (a + d) % TWO64 }

  /** `jmp [rip + disp32]` with the displacement at `at`. */
  function RipIndirect(m: Memory, src: nat, at: nat): Option<nat> {
    match ReadLe(m, src + at, 4)
    case None => None
    case Some(v) => ReadLe(m, Offset(src + at + 4, Signed(v, 0x1_0000_0000)), 8)
  }

  /** `mov reg, imm64; jmp reg`: the target, if the `n` bytes after the immediate are `jump`. */
  function RegisterJump(m: Memory, src: nat, jump: nat, n: nat): Option<nat> {
    match ReadLe(m, src + 10, n)
    case None => None
    case Some(v) => if v == jump then ReadLe(m, src + 2, 8) else None
  }

  /** `detour_code_from_pointer_once` on x86-64. */
  function Once(m: Memory, src: nat): Option<nat> {
    match ReadLe(m, src, 1)
    case None => None
    case Some(op) =>
      if op == 0xE9 then
        match ReadLe(m, src + 1, 4) {
          case None => None
          case Some(v) => Some(Offset(src, 5 + Signed(v, 0x1_0000_0000)))
        }
      else if op == 0xEB then
        match ReadLe(m, src + 1, 1) { case None => None case Some(v) => Some(Offset(src, 2 + Signed(v, 0x100))) }
      else if op == 0xFF then
        match ReadLe(m, src + 1, 1) {
          case None => None
          case Some(v) => if v == 0x25 then RipIndirect(m, src, 2) else None
        }
      else if op == 0x48 then
        match (ReadLe(m, src + 1, 1), ReadLe(m, src + 2, 1)) {
          case (Some(a), Some(b)) =>
            if a == 0xFF && b == 0x25 then RipIndirect(m, src, 3)
            else if a == 0xB8 then RegisterJump(m, src, 0xE0FF, 2)
            else None
          case _ => None
        }
      else if op == 0x49 then
        match ReadLe(m, src + 1, 1) {
          case None => None
          case Some(v) => if v == 0xBA then RegisterJump(m, src, 0xE2_FF41, 3) else None
        }
      else None
  }

  /** `jmp rel32` is followed to the target it was assembled for. */
  lemma FollowsRel32(m: Memory, src: nat, target: nat)
    requires CanRead(m, src, 1) && Le(m, src, 1) == 0xE9 && CanRead(m, src + 1, 4)
    requires target < TWO64 && -0x8000_0000 <= target - (src + 5) < 0x8000_0000
    requires Le(m, src + 1, 4) == (target - (src + 5)) % 0x1_0000_0000
    ensures Once(m, src) == Some(target)
  {
    assert Signed(Le(m, src + 1, 4), 0x1_0000_0000) == target - (src + 5);
  }

  /** `jmp [rip + disp32]` is followed to what its slot holds. */
  lemma FollowsSlot(m: Memory, src: nat, slot: nat)
    requires CanRead(m, src, 1) && Le(m, src, 1) == 0xFF && CanRead(m, src + 1, 1) && Le(m, src + 1, 1) == 0x25
    requires CanRead(m, src + 2, 4) && slot < TWO64 && -0x8000_0000 <= slot - (src + 6) < 0x8000_0000
    requires Le(m, src + 2, 4) == (slot - (src + 6)) % 0x1_0000_0000
    ensures Once(m, src) == ReadLe(m, slot, 8)
  {
    assert Signed(Le(m, src + 2, 4), 0x1_0000_0000) == slot - (src + 6);
  }

  /** `mov r10, imm64` is followed exactly when `jmp r10` comes after it, not another register's jump. */
  lemma FollowsR10(m: Memory, src: nat)
    requires CanRead(m, src, 1) && Le(m, src, 1) == 0x49 && CanRead(m, src + 1, 1) && Le(m, src + 1, 1) == 0xBA
    requires CanRead(m, src + 2, 8) && CanRead(m, src + 10, 3)
    requires m.byteAt(src + 10) < 256 && m.byteAt(src + 11) < 256 && m.byteAt(src + 12) < 256
    ensures Once(m, src).Some? <==>
              m.byteAt(src + 10) == 0x41 && m.byteAt(src + 11) == 0xFF && m.byteAt(src + 12) == 0xE2
    ensures Once(m, src).Some? ==> Once(m, src).value == Le(m, src + 2, 8)
  {
    assert Le(m, src + 13, 0) == 0;
    assert Le(m, src + 12, 1) == m.byteAt(src + 12) + 256 * Le(m, src + 13, 0);
    assert Le(m, src + 11, 2) == m.byteAt(src + 11) + 256 * Le(m, src + 12, 1);
    assert Le(m, src + 10, 3) == m.byteAt(src + 10) + 256 * Le(m, src + 11, 2);
  }

  /** `jmp rel8`, forwards and backwards. */
  lemma FollowsRel8(m: Memory, src: nat, target: nat)
    requires CanRead(m, src, 1) && Le(m, src, 1) == 0xEB && CanRead(m, src + 1, 1)
    requires target < TWO64 && -0x80 <= target - (src + 2) < 0x80
    requires Le(m, src + 1, 1) == (target - (src + 2)) % 0x100
    ensures Once(m, src) == Some(target)
  {
    assert Signed(Le(m, src + 1, 1), 0x100) == target - (src + 2);
  }

  /** `jmp [rip + disp32]` with a REX.W prefix, one byte longer. */
  lemma FollowsWideSlot(m: Memory, src: nat, slot: nat)
    requires CanRead(m, src, 1) && Le(m, src, 1) == 0x48 && CanRead(m, src + 1, 1) && Le(m, src + 1, 1) == 0xFF
    requires CanRead(m, src + 2, 1) && Le(m, src + 2, 1) == 0x25
    requires CanRead(m, src + 3, 4) && slot < TWO64 && -0x8000_0000 <= slot - (src + 7) < 0x8000_0000
    requires Le(m, src + 3, 4) == (slot - (src + 7)) % 0x1_0000_0000
    ensures Once(m, src) == ReadLe(m, slot, 8)
  {
    assert Signed(Le(m, src + 3, 4), 0x1_0000_0000) == slot - (src + 7);
  }

  /** `mov rax, imm64` is followed exactly when `jmp rax` comes after it. */
  lemma FollowsRax(m: Memory, src: nat)
    requires CanRead(m, src, 1) && Le(m, src, 1) == 0x48 && CanRead(m, src + 1, 1) && Le(m, src + 1, 1) == 0xB8
    requires CanRead(m, src + 2, 1) && CanRead(m, src + 2, 8) && CanRead(m, src + 10, 2)
    requires m.byteAt(src + 10) < 256 && m.byteAt(src + 11) < 256
    ensures Once(m, src).Some? <==> m.byteAt(src + 10) == 0xFF && m.byteAt(src + 11) == 0xE0
    ensures Once(m, src).Some? ==> Once(m, src).value == Le(m, src + 2, 8)
  {
    assert Le(m, src + 12, 0) == 0;
    assert Le(m, src + 11, 1) == m.byteAt(src + 11) + 256 * Le(m, src + 12, 0);
    assert Le(m, src + 10, 2) == m.byteAt(src + 10) + 256 * Le(m, src + 11, 1);
  }

  /** Nothing else is followed. */
  lemma FollowsNothingElse(m: Memory, src: nat)
    requires Once(m, src).Some?
    ensures CanRead(m, src, 1)
    ensures var op, next, third := m.byteAt(src), m.byteAt(src + 1), m.byteAt(src + 2);
            || op == 0xE9 || op == 0xEB || (op == 0xFF && next == 0x25) || (op == 0x49 && next == 0xBA)
            || (op == 0x48 && (next == 0xB8 || (next == 0xFF && third == 0x25)))
  {
    forall a: nat ensures Le(m, a, 1) == m.byteAt(a) {
      assert Le(m, a + 1, 0) == 0;
    }
  }

  // ------------------------------------------------------------- the chain

  /** A thunk's non-null target. */
  type Step = nat -> Option<nat>

  function StepIn(m: Memory): Step {
    a => match Once(m, a) { case None => None case Some(t) => if t == 0 then None else Some(t) }
  }

  /** The `k`-th element of the chain from `a`. */
  ghost function Iter(step: Step, a: nat, k: nat): Option<nat> {
    if k == 0 then Some(a) else match Iter(step, a, k - 1) { case None => None case Some(b) => step(b) }
  }

  ghost predicate Fresh(step: Step, p: nat, n: nat) {
    forall i, j :: 0 <= i < j < n ==> Iter(step, p, i) != Iter(step, p, j)
  }

  ghost predicate Repeats(step: Step, p: nat, n: nat) {
    exists i :: 0 <= i < n && Iter(step, p, i) == Iter(step, p, n)
  }

  /**
   The walk from `p` ends at `r` after `n` follows: it met no address twice before, and it
   stopped at code that is no thunk, at an address it had seen, or because `n` is the bound.
   */
  ghost predicate Resolves(step: Step, p: nat, n: nat, r: nat) {
    && n <= MAX_JUMP_FOLLOWS && Iter(step, p, n) == Some(r) && Fresh(step, p, n)
    && (n == MAX_JUMP_FOLLOWS || step(r) == None || Repeats(step, p, n))
  }

  method Seen(seen: seq<nat>, a: nat) returns (yes: bool)
    ensures yes <==> a in seen
  {
    yes := false;
    for i := 0 to |seen|
      invariant yes <==> a in seen[..i]
    {
      if seen[i] == a {
        yes := true;
      }
    }
    assert seen[..|seen|] == seen;
  }

  /** Follows the chain, remembering where it has been; `n` is the number of thunks followed. */
  method Follow(step: Step, pointer: nat) returns (r: nat, n: nat)
    ensures Resolves(step, pointer, n, r)
  {
    r, n := pointer, 0;
    var seen: seq<nat> := [];
    while n < MAX_JUMP_FOLLOWS
      invariant n == |seen| <= MAX_JUMP_FOLLOWS
      invariant Iter(step, pointer, n) == Some(r)
      invariant forall i :: 0 <= i < n ==> Iter(step, pointer, i) == Some(seen[i])
      invariant Fresh(step, pointer, n)
    {
      var known := Seen(seen, r);
      if known {
        return;
      }
      var next := step(r);
      if next.None? {
        return;
      }
      seen := seen + [r];
      n := n + 1;
      r := next.value;
    }
  }

  /** `detour_code_from_pointer`. */
  method CodeFromPointer(m: Memory, pointer: nat) returns (r: nat, n: nat)
    ensures pointer == 0 ==> r == 0
    ensures pointer != 0 ==> Resolves(StepIn(m), pointer, n, r)
  {
    if pointer == 0 {
      return 0, 0;
    }
    r, n := Follow(StepIn(m), pointer);
  }

  // ------------------------------------------------------------- determinism

  lemma {:induction false} IterAdd(step: Step, a: nat, i: nat, b: nat, j: nat)
    requires Iter(step, a, i) == Some(b)
    ensures Iter(step, a, i + j) == Iter(step, b, j)
    decreases j
  {
    if j > 0 {
      IterAdd(step, a, i, b, j - 1);
    }
  }

  lemma {:induction false} IterReaches(step: Step, a: nat, n: nat, i: nat)
    requires Iter(step, a, n).Some? && i <= n
    ensures Iter(step, a, i).Some?
    decreases n
  {
    if i < n {
      IterReaches(step, a, n - 1, i);
    }
  }

  lemma NotAtEnd(step: Step, a: nat, i: nat, n: nat, r: nat)
    requires Iter(step, a, n).Some? && i < n && Iter(step, a, i) == Some(r)
    ensures step(r).Some?
  {
    IterReaches(step, a, n, i + 1);
  }

  lemma Longest(step: Step, p: nat, n: nat, r: nat, n': nat, r': nat)
    requires Resolves(step, p, n, r) && Resolves(step, p, n', r')
    ensures n' <= n
  {
    if n < n' {
      NotAtEnd(step, p, n, n', r);
    }
  }

  /** The outcome of a walk is determined by where it starts. */
  lemma OneOutcome(step: Step, p: nat, n: nat, r: nat, n': nat, r': nat)
    requires Resolves(step, p, n, r) && Resolves(step, p, n', r')
    ensures n == n' && r == r'
  {
    Longest(step, p, n, r, n', r');
    Longest(step, p, n', r', n, r);
  }

  // -------------------------------------------------------------- fixed points

  /** Within the bound, following thunks from `r` leads back to `r`, or nowhere. */
  ghost predicate Settled(step: Step, r: nat) {
    step(r) == None || exists k :: 1 <= k <= MAX_JUMP_FOLLOWS && Iter(step, r, k) == Some(r)
  }

  /** On a cycle of length `k` the chain is periodic. */
  lemma Periodic(step: Step, r: nat, k: nat, t: nat)
    requires Iter(step, r, k) == Some(r)
    ensures Iter(step, r, k + t) == Iter(step, r, t)
  {
    IterAdd(step, r, k, r, t);
  }

  lemma FreshApart(step: Step, p: nat, n: nat, i: nat, j: nat)
    requires Fresh(step, p, n) && i < j < n
    ensures Iter(step, p, i) != Iter(step, p, j)
  {
  }

  /** A walk that starts on a cycle no longer than the bound comes back to its start. */
  lemma CycleReturns(step: Step, r: nat, k: nat, m: nat, s: nat)
    requires 1 <= k <= MAX_JUMP_FOLLOWS && Iter(step, r, k) == Some(r) && Resolves(step, r, m, s)
    ensures s == r
  {
    if k < m {
      FreshApart(step, r, m, 0, k);
    } else if m < k {
      NotAtEnd(step, r, m, k, s);
      var i :| 0 <= i < m && Iter(step, r, i) == Iter(step, r, m);
      if i > 0 {
        // The chain goes from both on in the same way, so it is back at the start m - i steps in.
        IterAdd(step, r, i, s, k - i);
        IterAdd(step, r, m, s, k - i);
        Periodic(step, r, k, m - i);
        assert m + (k - i) == k + (m - i);
        FreshApart(step, r, m, 0, m - i);
      }
    }
  }

  lemma SelfIsSettled(step: Step, r: nat, m: nat)
    requires Resolves(step, r, m, r)
    ensures Settled(step, r)
  {
  }

  lemma SettledIsSelf(step: Step, r: nat, m: nat, s: nat)
    requires Resolves(step, r, m, s) && Settled(step, r)
    ensures s == r
  {
    if step(r).Some? {
      var k :| 1 <= k <= MAX_JUMP_FOLLOWS && Iter(step, r, k) == Some(r);
      CycleReturns(step, r, k, m, s);
    } else if m > 0 {
      IterReaches(step, r, m, 1);
    }
  }

  /** Resolving `r` gives `r` exactly when it is settled. */
  lemma FixedPointIff(step: Step, r: nat, m: nat, s: nat)
    requires Resolves(step, r, m, s)
    ensures s == r <==> Settled(step, r)
  {
    if s == r {
      SelfIsSettled(step, r, m);
    }
    if Settled(step, r) {
      SettledIsSelf(step, r, m, s);
    }
  }

  /** A walk that ended before the bound ended at a settled address: resolving again changes nothing. */
  lemma EarlyStopIsSettled(step: Step, p: nat, n: nat, r: nat)
    requires Resolves(step, p, n, r) && n < MAX_JUMP_FOLLOWS
    ensures Settled(step, r)
  {
    if step(r) != None {
      var i :| 0 <= i < n && Iter(step, p, i) == Iter(step, p, n);
      IterAdd(step, p, i, r, n - i);
      assert Iter(step, r, n - i) == Some(r);
    }
  }

  /** A step from a settled address leads to a settled one. */
  lemma SettledStep(step: Step, b: nat, c: nat)
    requires Settled(step, b) && step(b) == Some(c)
    ensures Settled(step, c)
  {
    var k :| 1 <= k <= MAX_JUMP_FOLLOWS && Iter(step, b, k) == Some(b);
    assert Iter(step, b, 1) == step(Iter(step, b, 0).value);
    IterAdd(step, b, k, b, 1);
    IterAdd(step, b, 1, c, k);
    assert Iter(step, c, k) == Some(c);
  }

  lemma {:induction false} SettledStays(step: Step, p: nat, k: nat, n: nat)
    requires k <= n && Iter(step, p, n).Some? && Iter(step, p, k).Some? && Settled(step, Iter(step, p, k).value)
    ensures Settled(step, Iter(step, p, n).value)
    decreases n
  {
    if k < n {
      IterReaches(step, p, n, n - 1);
      SettledStays(step, p, k, n - 1);
      SettledStep(step, Iter(step, p, n - 1).value, Iter(step, p, n).value);
    }
  }

  /** One of the first 32 thunks of the chain from `p` leads to code, or into a cycle of at most 32 thunks. */
  ghost predicate SettlesInTime(step: Step, p: nat) {
    exists k: nat :: k <= MAX_JUMP_FOLLOWS && Iter(step, p, k).Some? && Settled(step, Iter(step, p, k).value)
  }

  /** Resolving twice gives what resolving once gives exactly if the chain from `p` settles in time. */
  lemma ResolvingTwice(step: Step, p: nat, n: nat, r: nat, m: nat, s: nat)
    requires Resolves(step, p, n, r) && Resolves(step, r, m, s)
    ensures s == r <==> SettlesInTime(step, p)
    ensures n < MAX_JUMP_FOLLOWS ==> s == r
  {
    FixedPointIff(step, r, m, s);
    if n < MAX_JUMP_FOLLOWS {
      EarlyStopIsSettled(step, p, n, r);
    }
    if Settled(step, r) {
      assert Iter(step, p, n) == Some(r);
    } else if SettlesInTime(step, p) {
      var k: nat :| k <= MAX_JUMP_FOLLOWS && Iter(step, p, k).Some? && Settled(step, Iter(step, p, k).value);
      SettledStays(step, p, k, n);
    }
  }

  // ------------------------------------------------------------ cycle entries

  ghost predicate OnCycle(step: Step, b: Option<nat>) {
    b.Some? && exists k :: k >= 1 && Iter(step, b.value, k) == b
  }

  /** Once the chain has come back to its `i`-th element, it stays among those from there on. */
  lemma {:induction false} LoopCloses(step: Step, p: nat, i: nat, n: nat, far: nat) returns (u: nat)
    requires i < n && Iter(step, p, i) == Iter(step, p, n) && Iter(step, p, n).Some? && i <= far
    ensures i <= u < n && Iter(step, p, far) == Iter(step, p, u)
    decreases far
  {
    if far == i {
      u := i;
    } else {
      var v := LoopCloses(step, p, i, n, far - 1);
      IterReaches(step, p, n, v + 1);
      u := if v + 1 < n then v + 1 else i;
    }
  }

  lemma {:induction false} GoesRound(step: Step, a: nat, k: nat, q: nat) returns (far: nat)
    requires k >= 1 && Iter(step, a, k) == Some(a)
    ensures far >= q && Iter(step, a, far) == Some(a)
    decreases q
  {
    if q == 0 {
      far := 0;
    } else {
      var less := GoesRound(step, a, k, q - 1);
      IterAdd(step, a, k, a, less);
      far := k + less;
    }
  }

  lemma NotBackBeforeEntry(step: Step, p: nat, n: nat, i: nat, j: nat, far: nat)
    requires Fresh(step, p, n) && j < i < n && Iter(step, p, i) == Iter(step, p, n) && Iter(step, p, n).Some?
    requires far >= i
    ensures Iter(step, p, far) != Iter(step, p, j)
  {
    var u := LoopCloses(step, p, i, n, far);
    FreshApart(step, p, n, j, u);
  }

  /** An element on a cycle comes up again arbitrarily far along the chain. */
  lemma ComesAgain(step: Step, p: nat, j: nat, a: nat, k: nat, i: nat) returns (far: nat)
    requires Iter(step, p, j) == Some(a) && k >= 1 && Iter(step, a, k) == Some(a)
    ensures far >= i && Iter(step, p, far) == Iter(step, p, j)
  {
    var round := GoesRound(step, a, k, i);
    IterAdd(step, p, j, a, round);
    far := j + round;
  }

  /** On a chain that runs into a cycle the walk ends where the chain enters it. */
  lemma CycleEntry(step: Step, p: nat, n: nat, r: nat) returns (i: nat)
    requires Resolves(step, p, n, r) && n < MAX_JUMP_FOLLOWS && step(r) != None
    ensures i < n && Iter(step, p, i) == Some(r) && OnCycle(step, Some(r))
    ensures forall j :: 0 <= j < i ==> !OnCycle(step, Iter(step, p, j))
  {
    i :| 0 <= i < n && Iter(step, p, i) == Iter(step, p, n);
    IterAdd(step, p, i, r, n - i);
    assert Iter(step, r, n - i) == Some(r);
    forall j | 0 <= j < i ensures !OnCycle(step, Iter(step, p, j)) {
      if OnCycle(step, Iter(step, p, j)) {
        var k :| k >= 1 && Iter(step, Iter(step, p, j).value, k) == Iter(step, p, j);
        var far := ComesAgain(step, p, j, Iter(step, p, j).value, k, i);
        NotBackBeforeEntry(step, p, n, i, j, far);
      }
    }
  }

  // ---------------------------------------------------- beyond the bound

  /** Memory full of short jumps to the next one. */
  ghost function Ladder(): Memory { Memory((_, _) => true, a => if a % 2 == 0 then 0xEB else 0) }

  lemma LadderStep(a: nat)
    requires 0 < a < 1000 && a % 2 == 0
    ensures StepIn(Ladder())(a) == Some(a + 2)
  {
    assert Le(Ladder(), a, 1) == 0xEB;
    assert Le(Ladder(), a + 1, 1) == 0;
  }

  lemma {:induction false} LadderIter(a: nat, k: nat)
    requires 0 < a && a % 2 == 0 && a + 2 * k < 1000
    ensures Iter(StepIn(Ladder()), a, k) == Some(a + 2 * k)
    decreases k
  {
    if k > 0 {
      LadderIter(a, k - 1);
      LadderStep(a + 2 * (k - 1));
    }
  }

  /** A chain longer than the bound is not settled: resolving it twice goes further than resolving it once. */
  lemma LongChainIsNotSettled()
    ensures var step := StepIn(Ladder());
            Resolves(step, 2, 32, 66) && Resolves(step, 66, 32, 130) && !SettlesInTime(step, 2)
  {
    LongChainRuns();
    ResolvingTwice(StepIn(Ladder()), 2, 32, 66, 32, 130);
  }

  lemma LongChainRuns()
    ensures var step := StepIn(Ladder());
            Resolves(step, 2, 32, 66) && Resolves(step, 66, 32, 130)
  {
    var step := StepIn(Ladder());
    forall a, k: nat | a in {2, 66} && k <= 32 ensures Iter(step, a, k) == Some(a + 2 * k) {
      LadderIter(a, k);
    }
  }
}
