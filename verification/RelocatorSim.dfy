/**
 The trampoline copy simulates the stolen instructions, from every instruction
 of the block, for every machine state and every instruction semantics.
 */
module RelocatorSim {
  import opened Options
  import opened Relocator

  /** What `relocate` works on: a decoded block it did not reject, at a non-null 64-bit address. */
  ghost predicate Stolen(decoded: seq<Instr>, start: nat, end: nat) {
    && Contiguous(decoded, start, end) && Relocatable(decoded, start, end)
    && 0 < start && end < TWO64
  }

  // ----------------------------------------------------- layout of the block

  lemma {:induction false} IpsIncrease(decoded: seq<Instr>, start: nat, end: nat, i: nat, j: nat)
    requires Contiguous(decoded, start, end) && i < j < |decoded|
    ensures start <= decoded[i].ip < decoded[j].ip < end
    decreases |decoded| - i + j
  {
    IpsInside(decoded, start, end, i);
    IpsInside(decoded, start, end, j);
    if i + 1 < j { IpsIncrease(decoded, start, end, i, j - 1); }
  }

  lemma {:induction false} IpsInside(decoded: seq<Instr>, start: nat, end: nat, i: nat)
    requires Contiguous(decoded, start, end) && i < |decoded|
    ensures start <= decoded[i].ip < decoded[i].NextIp() <= end
  {
    if i > 0 { StartBounds(decoded, start, end, i); }
    EndBounds(decoded, start, end, i);
  }

  lemma {:induction false} StartBounds(decoded: seq<Instr>, start: nat, end: nat, i: nat)
    requires Contiguous(decoded, start, end) && i < |decoded|
    ensures start <= decoded[i].ip
  {
    if i > 0 { StartBounds(decoded, start, end, i - 1); }
  }

  lemma {:induction false} EndBounds(decoded: seq<Instr>, start: nat, end: nat, i: nat)
    requires Contiguous(decoded, start, end) && i < |decoded|
    ensures decoded[i].NextIp() <= end
    decreases |decoded| - i
  {
    if i + 1 < |decoded| { EndBounds(decoded, start, end, i + 1); }
  }

  /** The copy of instruction `k` starts at `BlockIndex(k)` and is what `Emit` made of it. */
  lemma {:induction false} ExpandHolds(decoded: seq<Instr>, start: nat, end: nat, k: nat, n: nat)
    requires k < n <= |decoded|
    ensures var at := BlockIndex(decoded, start, end, k);
            var code := Emit(decoded[k], decoded, start, end);
            at + |code| <= |Expand(decoded, start, end, n)|
            && Expand(decoded, start, end, n)[at..at + |code|] == code
    decreases n
  {
    var before, code := Expand(decoded, start, end, n - 1), Emit(decoded[k], decoded, start, end);
    if k + 1 < n {
      ExpandHolds(decoded, start, end, k, n - 1);
      SliceOfLeft(before, Emit(decoded[n - 1], decoded, start, end), BlockIndex(decoded, start, end, k), |code|);
    } else {
      SliceOfRight(before, code);
    }
  }

  lemma SliceOfLeft<T>(a: seq<T>, b: seq<T>, at: nat, n: nat)
    requires at + n <= |a|
    ensures (a + b)[at..at + n] == a[at..at + n]
  {
  }

  lemma SliceOfRight<T>(a: seq<T>, b: seq<T>)
    ensures (a + b)[|a|..|a| + |b|] == b
  {
  }

  lemma SliceIsPointwise<T>(a: seq<T>, last: T, at: nat, code: seq<T>)
    requires at + |code| <= |a| && a[at..at + |code|] == code
    ensures forall x :: 0 <= x < |code| ==> (a + [last])[at + x] == code[x]
  {
    forall x | 0 <= x < |code| ensures (a + [last])[at + x] == code[x] {
      assert a[at..at + |code|][x] == code[x];
    }
  }

  lemma BlockHolds(decoded: seq<Instr>, start: nat, end: nat, k: nat)
    requires k < |decoded|
    ensures var at := BlockIndex(decoded, start, end, k);
            var code := Emit(decoded[k], decoded, start, end);
            var block := Block(decoded, start, end);
            at + |code| == BlockIndex(decoded, start, end, k + 1) < |block|
            && forall x :: 0 <= x < |code| ==> block[at + x] == code[x]
  {
    ExpandHolds(decoded, start, end, k, |decoded|);
    SliceIsPointwise(Expand(decoded, start, end, |decoded|), Instr(0, 0, Jump(end)),
                     BlockIndex(decoded, start, end, k), Emit(decoded[k], decoded, start, end));
  }

  /** An address is tracked in the block exactly where it is the address of a stolen instruction. */
  lemma {:induction false} TrackedIps(decoded: seq<Instr>, start: nat, end: nat, n: nat, j: nat)
    requires n <= |decoded| && j < |Expand(decoded, start, end, n)|
    requires Expand(decoded, start, end, n)[j].ip != 0
    ensures exists k :: 0 <= k < n && j == BlockIndex(decoded, start, end, k) &&
              Expand(decoded, start, end, n)[j].ip == decoded[k].ip
    decreases n
  {
    var before := Expand(decoded, start, end, n - 1);
    if j < |before| {
      TrackedIps(decoded, start, end, n - 1, j);
    } else {
      var code := Emit(decoded[n - 1], decoded, start, end);
      assert Expand(decoded, start, end, n)[j] == code[j - |before|];
      assert j == BlockIndex(decoded, start, end, n - 1);
    }
  }

  lemma IndexInBlock(decoded: seq<Instr>, start: nat, end: nat, k: nat)
    requires Stolen(decoded, start, end) && k < |decoded|
    ensures IndexOfIp(decoded, decoded[k].ip) == Some(k)
    ensures IndexOfIp(Block(decoded, start, end), decoded[k].ip) == Some(BlockIndex(decoded, start, end, k))
  {
    var ip, block := decoded[k].ip, Block(decoded, start, end);
    IpsInside(decoded, start, end, k);
    var own := IndexOfIp(decoded, ip).value;
    if own < k { IpsIncrease(decoded, start, end, own, k); }
    if k < own { IpsIncrease(decoded, start, end, k, own); }
    BlockHolds(decoded, start, end, k);
    assert block[BlockIndex(decoded, start, end, k)].ip == ip;
    var j := IndexOfIp(block, ip).value;
    assert j < |block| - 1;
    TrackedIps(decoded, start, end, |decoded|, j);
    var k' :| 0 <= k' < |decoded| && j == BlockIndex(decoded, start, end, k') && decoded[k'].ip == ip;
    if k' < k { IpsIncrease(decoded, start, end, k', k); }
    if k < k' { IpsIncrease(decoded, start, end, k, k'); }
  }

  /** A branch of the copy goes to the copy of where the original would go, or out to the same address. */
  lemma FollowMatchesGoto(decoded: seq<Instr>, start: nat, end: nat, t: nat, st: State)
    requires Stolen(decoded, start, end)
    ensures match Goto(decoded, t, st)
            case Stay(k, _) => k < |decoded| &&
                Follow(Block(decoded, start, end), t, st) == Stay(BlockIndex(decoded, start, end, k), st)
            case Left(_, _, _) => Follow(Block(decoded, start, end), t, st) == Left(t, st, None)
  {
    var k := IndexOfIp(decoded, t);
    var j := IndexOfIp(Block(decoded, start, end), t);
    if k.Some? {
      IpsInside(decoded, start, end, k.value);
      IndexInBlock(decoded, start, end, k.value);
    } else if t != 0 && j.Some? {
      TrackedIps(decoded, start, end, |decoded|, j.value);
      assert false;
    }
  }

  /** Falling off instruction `i` leads to the next one, or out of the block. */
  lemma FallThrough(decoded: seq<Instr>, start: nat, end: nat, i: nat, st: State)
    requires Stolen(decoded, start, end) && i < |decoded|
    ensures Goto(decoded, decoded[i].NextIp(), st) == if i + 1 < |decoded| then Stay(i + 1, st) else Left(end, st, None)
  {
    if i + 1 < |decoded| {
      IndexInBlock(decoded, start, end, i + 1);
    } else {
      EndIsOutside(decoded, start, end);
    }
  }

  lemma EndIsOutside(decoded: seq<Instr>, start: nat, end: nat)
    requires Contiguous(decoded, start, end)
    ensures IndexOfIp(decoded, end) == None
  {
    forall k | 0 <= k < |decoded| ensures decoded[k].ip != end { IpsInside(decoded, start, end, k); }
  }

  // ------------------------------------------------------------- simulation

  /** `Indices[k]` is where the copy of instruction `k` begins; past the last one it is the jump back. */
  function Indices(decoded: seq<Instr>, start: nat, end: nat): (idx: seq<nat>)
    ensures |idx| == |decoded| + 1
    ensures forall k :: 0 <= k < |idx| ==> idx[k] == BlockIndex(decoded, start, end, k) < |Block(decoded, start, end)|
  {
    seq(|decoded| + 1, k requires 0 <= k <= |decoded| => BlockIndex(decoded, start, end, k))
  }

  /**
   Same place, same state. A call that leaves pushed the copy's return address
   instead of the original one; everything else agrees.
   */
  ghost predicate Related(decoded: seq<Instr>, idx: seq<nat>, addr: seq<nat>, o: Outcome, c: Outcome)
    requires |idx| == |decoded| + 1 && forall k :: 0 <= k < |idx| ==> idx[k] < |addr|
  {
    match o
    case Stay(k, st) => k < |decoded| && c == Stay(idx[k], st)
    case Left(to, st, None) => c == o
    case Left(to, st, Some(ret)) =>
      exists k :: 0 < k <= |decoded| && decoded[k - 1].NextIp() == ret
        && c == Left(to, st.(mem := Store(st.mem, st.sp, Word(addr[idx[k]]))), Some(addr[idx[k]]))
  }

  /** Steps of the copy for one step of the original. */
  function Cost(sem: Sem, decoded: seq<Instr>, start: nat, end: nat, i: nat, st: State): nat
    requires i < |decoded|
  {
    if EmulateCall(decoded[i], decoded, start, end).Sequence? then 3
    else if i + 1 == |decoded|
         && (decoded[i].kind.Plain? || decoded[i].kind.PushSigned? || decoded[i].kind.StoreHigh?
             || (decoded[i].kind.Branch? && !sem.taken(decoded[i].kind.op, st))) then 2
    else 1
  }

  lemma StoreAgain(mem: map<int, int>, at: int, bs: seq<int>, cs: seq<int>)
    requires |bs| == |cs|
    ensures Store(Store(mem, at, bs), at, cs) == Store(mem, at, cs)
  {
    var both, want := Store(Store(mem, at, bs), at, cs), Store(mem, at, cs);
    assert both.Keys == want.Keys;
    forall x | x in both ensures both[x] == want[x] {
    }
  }

  /** Pushing `v` and overwriting it with `w` is pushing `w`. */
  lemma PushAgain(st: State, v: nat, w: nat)
    ensures var p := Push(st, v); p.(mem := Store(p.mem, p.sp, Word(w))) == Push(st, w)
  {
    StoreAgain(st.mem, st.sp - 8, Word(v), Word(w));
  }

  lemma RelatedCall(decoded: seq<Instr>, start: nat, end: nat, addr: seq<nat>, i: nat, to: nat, st: State)
    requires i < |decoded| && |addr| == |Block(decoded, start, end)|
    ensures var next, copy := decoded[i].NextIp(), addr[BlockIndex(decoded, start, end, i + 1)];
            Related(decoded, Indices(decoded, start, end), addr, Left(to, Push(st, next), Some(next)),
                    Left(to, Push(st, copy), Some(copy)))
  {
    PushAgain(st, decoded[i].NextIp(), addr[BlockIndex(decoded, start, end, i + 1)]);
  }

  lemma CallOutside(decoded: seq<Instr>, start: nat, end: nat, i: nat)
    requires Contiguous(decoded, start, end) && i < |decoded| && decoded[i].kind.Call?
    requires EmulateCall(decoded[i], decoded, start, end).NotOurs?
    ensures !InBlock(decoded, decoded[i].kind.target) && decoded[i].kind.target != end
  {
    IpsInside(decoded, start, end, i);
    forall k | 0 <= k < |decoded| ensures decoded[k].ip != decoded[i].kind.target {
      IpsInside(decoded, start, end, k);
    }
  }

  /** A call that leaves the block, encoded or computed. */
  lemma StepOfCall(sem: Sem, decoded: seq<Instr>, start: nat, end: nat, addr: seq<nat>, i: nat, st: State)
    requires Stolen(decoded, start, end) && i < |decoded| && |addr| == |Block(decoded, start, end)|
    requires || decoded[i].kind.ComputedCall?
             || (decoded[i].kind.Call? && EmulateCall(decoded[i], decoded, start, end).NotOurs?)
    ensures Related(decoded, Indices(decoded, start, end), addr, OriginalStep(sem, decoded, end, i, st),
                    CopyStep(sem, Block(decoded, start, end), addr, BlockIndex(decoded, start, end, i), st))
  {
    BlockHolds(decoded, start, end, i);
    if decoded[i].kind.Call? {
      CallOutside(decoded, start, end, i);
      RelatedCall(decoded, start, end, addr, i, decoded[i].kind.target, st);
    } else {
      var op := decoded[i].kind.op;
      RelatedCall(decoded, start, end, addr, i, sem.dest(op, st), sem.effect(op, st));
    }
  }

  /** One step of the copy is one of the original, or its last one before the jump back. */
  ghost predicate StepMatches(sem: Sem, decoded: seq<Instr>, start: nat, end: nat, addr: seq<nat>, i: nat, st: State)
    requires Stolen(decoded, start, end) && i < |decoded| && |addr| == |Block(decoded, start, end)|
  {
    var c := CopyStep(sem, Block(decoded, start, end), addr, BlockIndex(decoded, start, end, i), st);
    var o := OriginalStep(sem, decoded, end, i, st);
    if Cost(sem, decoded, start, end, i, st) == 2
    then o == Left(end, c.st, None) && c == Stay(|Block(decoded, start, end)| - 1, c.st)
    else Related(decoded, Indices(decoded, start, end), addr, o, c)
  }

  /** An instruction that is no call is its own copy. */
  lemma CopiedAsIs(decoded: seq<Instr>, start: nat, end: nat, i: nat)
    requires Stolen(decoded, start, end) && i < |decoded| && !decoded[i].kind.Call?
    ensures var at := BlockIndex(decoded, start, end, i);
            at + 1 == BlockIndex(decoded, start, end, i + 1) && Block(decoded, start, end)[at].kind == decoded[i].kind
  {
    BlockHolds(decoded, start, end, i);
  }

  lemma FallsAlike(decoded: seq<Instr>, start: nat, end: nat, addr: seq<nat>, i: nat, st: State)
    requires Stolen(decoded, start, end) && i < |decoded| && |addr| == |Block(decoded, start, end)|
    requires BlockIndex(decoded, start, end, i) + 1 == BlockIndex(decoded, start, end, i + 1)
    ensures var o, c := Goto(decoded, decoded[i].NextIp(), st), Stay(BlockIndex(decoded, start, end, i) + 1, st);
            if i + 1 == |decoded| then o == Left(end, st, None) && c == Stay(|Block(decoded, start, end)| - 1, st)
            else Related(decoded, Indices(decoded, start, end), addr, o, c)
  {
    FallThrough(decoded, start, end, i, st);
  }

  lemma FollowsAlike(decoded: seq<Instr>, start: nat, end: nat, addr: seq<nat>, t: nat, st: State)
    requires Stolen(decoded, start, end) && |addr| == |Block(decoded, start, end)|
    ensures Related(decoded, Indices(decoded, start, end), addr, Goto(decoded, t, st),
                    Follow(Block(decoded, start, end), t, st))
  {
    FollowMatchesGoto(decoded, start, end, t, st);
  }

  /** An instruction of kind `kind` that falls through turns `st` into `st'`. */
  predicate FallsTo(sem: Sem, kind: Kind, st: State, st': State) {
    match kind
    case Plain(op) => st' == sem.effect(op, st)
    case PushSigned(v) => st' == Push(st, SignExtend(v))
    case StoreHigh(v) => st' == st.(mem := Store(st.mem, st.sp + 4, Quad(v)))
    case _ => false
  }

  lemma OriginalFalls(sem: Sem, decoded: seq<Instr>, start: nat, end: nat, i: nat, st: State, st': State)
    requires i < |decoded| && FallsTo(sem, decoded[i].kind, st, st')
    ensures OriginalStep(sem, decoded, end, i, st) == Goto(decoded, decoded[i].NextIp(), st')
    ensures Cost(sem, decoded, start, end, i, st) == if i + 1 == |decoded| then 2 else 1
  {
  }

  lemma CopyFalls(sem: Sem, block: seq<Instr>, addr: seq<nat>, j: nat, st: State, st': State)
    requires j < |block| == |addr| && FallsTo(sem, block[j].kind, st, st')
    ensures CopyStep(sem, block, addr, j, st) == Stay(j + 1, st')
  {
  }

  lemma StepFalls(sem: Sem, decoded: seq<Instr>, start: nat, end: nat, addr: seq<nat>, i: nat, st: State, st': State)
    requires Stolen(decoded, start, end) && i < |decoded| && |addr| == |Block(decoded, start, end)|
    requires FallsTo(sem, decoded[i].kind, st, st')
    ensures StepMatches(sem, decoded, start, end, addr, i, st)
  {
    CopiedAsIs(decoded, start, end, i);
    OriginalFalls(sem, decoded, start, end, i, st, st');
    CopyFalls(sem, Block(decoded, start, end), addr, BlockIndex(decoded, start, end, i), st, st');
    FallsAlike(decoded, start, end, addr, i, st');
  }

  lemma StepJumps(sem: Sem, decoded: seq<Instr>, start: nat, end: nat, addr: seq<nat>, i: nat, st: State)
    requires Stolen(decoded, start, end) && i < |decoded| && |addr| == |Block(decoded, start, end)|
    requires decoded[i].kind.Jump?
    ensures StepMatches(sem, decoded, start, end, addr, i, st)
  {
    CopiedAsIs(decoded, start, end, i);
    FollowsAlike(decoded, start, end, addr, decoded[i].kind.target, st);
  }

  lemma StepBranches(sem: Sem, decoded: seq<Instr>, start: nat, end: nat, addr: seq<nat>, i: nat, st: State)
    requires Stolen(decoded, start, end) && i < |decoded| && |addr| == |Block(decoded, start, end)|
    requires decoded[i].kind.Branch?
    ensures StepMatches(sem, decoded, start, end, addr, i, st)
  {
    var Branch(op, t) := decoded[i].kind;
    CopiedAsIs(decoded, start, end, i);
    if sem.taken(op, st) {
      FollowsAlike(decoded, start, end, addr, t, sem.effect(op, st));
    } else {
      FallsAlike(decoded, start, end, addr, i, sem.effect(op, st));
    }
  }

  lemma StepOfOther(sem: Sem, decoded: seq<Instr>, start: nat, end: nat, addr: seq<nat>, i: nat, st: State)
    requires Stolen(decoded, start, end) && i < |decoded| && |addr| == |Block(decoded, start, end)|
    requires !decoded[i].kind.ComputedCall? && !decoded[i].kind.Call?
    ensures StepMatches(sem, decoded, start, end, addr, i, st)
  {
    match decoded[i].kind
    case Plain(op) => StepFalls(sem, decoded, start, end, addr, i, st, sem.effect(op, st));
    case PushSigned(v) => StepFalls(sem, decoded, start, end, addr, i, st, Push(st, SignExtend(v)));
    case StoreHigh(v) =>
      StepFalls(sem, decoded, start, end, addr, i, st, st.(mem := Store(st.mem, st.sp + 4, Quad(v))));
    case Jump(_) => StepJumps(sem, decoded, start, end, addr, i, st);
    case Branch(_, _) => StepBranches(sem, decoded, start, end, addr, i, st);
    case Computed(_) => CopiedAsIs(decoded, start, end, i);
    case Invalid => assert false;
  }

  // ------------------------------------------------------------- whole runs

  lemma {:induction false} CopyRunAdds(sem: Sem, block: seq<Instr>, addr: seq<nat>, j: nat, st: State, m: nat, n: nat)
    requires j < |block| == |addr|
    ensures var r := CopyRun(sem, block, addr, j, st, m);
            CopyRun(sem, block, addr, j, st, m + n)
            == if r.Left? || r.at >= |block| then r else CopyRun(sem, block, addr, r.at, r.st, n)
    decreases m
  {
    if m > 0 {
      var r := CopyStep(sem, block, addr, j, st);
      if r.Stay? && r.at < |block| { CopyRunAdds(sem, block, addr, r.at, r.st, m - 1, n); }
    }
  }

  /** Push, store, jump: the whole return address is pushed and control goes to `t`. */
  lemma EmulatedSteps(sem: Sem, block: seq<Instr>, addr: seq<nat>, j: nat, st: State, ret: nat, t: nat)
    requires j + 2 < |block| == |addr| && ret < TWO64
    requires block[j].kind == PushSigned(ret % TWO32) && block[j + 1].kind == StoreHigh(ret / TWO32 % TWO32)
    requires block[j + 2].kind == Jump(t)
    ensures CopyRun(sem, block, addr, j, st, 3) == Follow(block, t, Push(st, ret))
  {
    EmulatedPush(st, ret);
    ThreeSteps(sem, block, addr, j, st, Push(st, SignExtend(ret % TWO32)), Push(st, ret));
  }

  lemma StepOfEmulatedCall(sem: Sem, decoded: seq<Instr>, start: nat, end: nat, addr: seq<nat>, i: nat, st: State)
    requires Stolen(decoded, start, end) && i < |decoded| && |addr| == |Block(decoded, start, end)|
    requires EmulateCall(decoded[i], decoded, start, end).Sequence?
    ensures Related(decoded, Indices(decoded, start, end), addr, OriginalStep(sem, decoded, end, i, st),
                    CopyRun(sem, Block(decoded, start, end), addr, BlockIndex(decoded, start, end, i), st, 3))
  {
    BlockHolds(decoded, start, end, i);
    IpsInside(decoded, start, end, i);
    var block, j := Block(decoded, start, end), BlockIndex(decoded, start, end, i);
    var code := Emit(decoded[i], decoded, start, end);
    assert block[j + 0] == code[0] && block[j + 1] == code[1] && block[j + 2] == code[2];
    EmulatedSteps(sem, block, addr, j, st, decoded[i].NextIp(), decoded[i].kind.target);
    FollowMatchesGoto(decoded, start, end, decoded[i].kind.target, Push(st, decoded[i].NextIp()));
  }

  lemma ThreeSteps(sem: Sem, block: seq<Instr>, addr: seq<nat>, j: nat, st: State, st1: State, st2: State)
    requires j + 2 < |block| == |addr|
    requires CopyStep(sem, block, addr, j, st) == Stay(j + 1, st1)
    requires CopyStep(sem, block, addr, j + 1, st1) == Stay(j + 2, st2)
    ensures CopyRun(sem, block, addr, j, st, 3) == CopyStep(sem, block, addr, j + 2, st2)
  {
    OneStep(sem, block, addr, j, st);
    OneStep(sem, block, addr, j + 1, st1);
    OneStep(sem, block, addr, j + 2, st2);
    CopyRunAdds(sem, block, addr, j, st, 1, 2);
    CopyRunAdds(sem, block, addr, j + 1, st1, 1, 1);
  }

  lemma OneStep(sem: Sem, block: seq<Instr>, addr: seq<nat>, j: nat, st: State)
    requires j < |block| == |addr|
    ensures CopyRun(sem, block, addr, j, st, 1) == CopyStep(sem, block, addr, j, st)
  {
  }

  /** One step of the original is one, two or three steps of the copy. */
  lemma StepSimulates(sem: Sem, decoded: seq<Instr>, start: nat, end: nat, addr: seq<nat>, i: nat, st: State)
    requires Stolen(decoded, start, end) && i < |decoded| && |addr| == |Block(decoded, start, end)|
    ensures Related(decoded, Indices(decoded, start, end), addr, OriginalStep(sem, decoded, end, i, st),
                    CopyRun(sem, Block(decoded, start, end), addr, BlockIndex(decoded, start, end, i), st,
                            Cost(sem, decoded, start, end, i, st)))
  {
    var block, j := Block(decoded, start, end), BlockIndex(decoded, start, end, i);
    OneStep(sem, block, addr, j, st);
    if EmulateCall(decoded[i], decoded, start, end).Sequence? {
      StepOfEmulatedCall(sem, decoded, start, end, addr, i, st);
    } else if decoded[i].kind.ComputedCall? || decoded[i].kind.Call? {
      StepOfCall(sem, decoded, start, end, addr, i, st);
    } else {
      StepOfOther(sem, decoded, start, end, addr, i, st);
      if Cost(sem, decoded, start, end, i, st) == 2 {
        var c := CopyStep(sem, block, addr, j, st);
        JumpBack(sem, decoded, start, end, addr, c.st);
        CopyRunAdds(sem, block, addr, j, st, 1, 1);
      }
    }
  }

  lemma JumpBack(sem: Sem, decoded: seq<Instr>, start: nat, end: nat, addr: seq<nat>, st: State)
    requires Stolen(decoded, start, end) && |addr| == |Block(decoded, start, end)|
    ensures CopyRun(sem, Block(decoded, start, end), addr, |addr| - 1, st, 1) == Left(end, st, None)
  {
    OneStep(sem, Block(decoded, start, end), addr, |addr| - 1, st);
    EndIsOutside(decoded, start, end);
    FollowMatchesGoto(decoded, start, end, end, st);
  }

  /** One step of the original from instruction `i` is matched by one to three steps of the copy. */
  ghost predicate StepMatched(sem: Sem, decoded: seq<Instr>, end: nat, block: seq<Instr>, idx: seq<nat>,
                              addr: seq<nat>, i: nat, st: State)
    requires |idx| == |decoded| + 1 && |block| == |addr| && forall k :: 0 <= k < |idx| ==> idx[k] < |addr|
    requires i < |decoded|
  {
    exists m: nat :: 1 <= m <= 3
      && Related(decoded, idx, addr, OriginalStep(sem, decoded, end, i, st), CopyRun(sem, block, addr, idx[i], st, m))
  }

  lemma {:induction false} RunMatched(sem: Sem, decoded: seq<Instr>, end: nat, block: seq<Instr>, idx: seq<nat>,
                                      addr: seq<nat>, i: nat, st: State, n: nat)
    returns (m: nat)
    requires |idx| == |decoded| + 1 && |block| == |addr| && forall k :: 0 <= k < |idx| ==> idx[k] < |addr|
    requires forall k: nat, st :: k < |decoded| ==> StepMatched(sem, decoded, end, block, idx, addr, k, st)
    requires i < |decoded|
    ensures m <= 3 * n
    ensures OriginalRun(sem, decoded, end, i, st, n).Stay? ==> n <= m
    ensures Related(decoded, idx, addr, OriginalRun(sem, decoded, end, i, st, n),
                    CopyRun(sem, block, addr, idx[i], st, m))
    decreases n
  {
    m := 0;
    if n > 0 {
      assert StepMatched(sem, decoded, end, block, idx, addr, i, st);
      m :| 1 <= m <= 3
           && Related(decoded, idx, addr, OriginalStep(sem, decoded, end, i, st),
                      CopyRun(sem, block, addr, idx[i], st, m));
      var o := OriginalStep(sem, decoded, end, i, st);
      if o.Stay? {
        var rest := RunMatched(sem, decoded, end, block, idx, addr, o.at, o.st, n - 1);
        CopyRunAdds(sem, block, addr, idx[i], st, m, rest);
        m := m + rest;
      }
    }
  }

  /** Any run of the original is matched by a run of the copy at most three times as long. */
  lemma RunSimulates(sem: Sem, decoded: seq<Instr>, start: nat, end: nat, addr: seq<nat>, i: nat, st: State, n: nat)
    returns (m: nat)
    requires Stolen(decoded, start, end) && i < |decoded| && |addr| == |Block(decoded, start, end)|
    ensures m <= 3 * n
    ensures OriginalRun(sem, decoded, end, i, st, n).Stay? ==> n <= m
    ensures Related(decoded, Indices(decoded, start, end), addr, OriginalRun(sem, decoded, end, i, st, n),
                    CopyRun(sem, Block(decoded, start, end), addr, BlockIndex(decoded, start, end, i), st, m))
  {
    var block, idx := Block(decoded, start, end), Indices(decoded, start, end);
    forall k: nat, st | k < |decoded| ensures StepMatched(sem, decoded, end, block, idx, addr, k, st) {
      StepSimulates(sem, decoded, start, end, addr, k, st);
    }
    m := RunMatched(sem, decoded, end, block, idx, addr, i, st, n);
  }

  /** Both runs agree on leaving, given a matching run of the copy. */
  lemma LeavingAgrees(sem: Sem, block: seq<Instr>, addr: seq<nat>, j: nat, st: State, o: Outcome, m: nat, n: nat)
    requires j < |block| == |addr|
    requires CopyRun(sem, block, addr, j, st, n).Left? && (o.Stay? ==> n <= m)
    requires o.Stay? ==> CopyRun(sem, block, addr, j, st, m).Stay?
    requires o.Left? ==> CopyRun(sem, block, addr, j, st, m).Left?
    ensures o.Left? && CopyRun(sem, block, addr, j, st, n) == CopyRun(sem, block, addr, j, st, m)
  {
    if n <= m {
      CopyRunAdds(sem, block, addr, j, st, n, m - n);
    } else {
      CopyRunAdds(sem, block, addr, j, st, m, n - m);
    }
  }

  /**
   Relocation preserves meaning: whenever the original leaves the block the copy
   leaves it for the same address in the related state, and the copy leaves only
   if the original does.
   */
  lemma RelocationPreservesMeaning(sem: Sem, decoded: seq<Instr>, start: nat, end: nat, addr: seq<nat>, i: nat,
                                   st: State, n: nat)
    requires Stolen(decoded, start, end) && i < |decoded| && |addr| == |Block(decoded, start, end)|
    ensures var block, j := Block(decoded, start, end), BlockIndex(decoded, start, end, i);
            && (OriginalRun(sem, decoded, end, i, st, n).Left? ==>
                  exists m: nat :: m <= 3 * n
                    && Related(decoded, Indices(decoded, start, end), addr, OriginalRun(sem, decoded, end, i, st, n),
                               CopyRun(sem, block, addr, j, st, m)))
            && (CopyRun(sem, block, addr, j, st, n).Left? ==>
                  && OriginalRun(sem, decoded, end, i, st, n).Left?
                  && Related(decoded, Indices(decoded, start, end), addr, OriginalRun(sem, decoded, end, i, st, n),
                             CopyRun(sem, block, addr, j, st, n)))
  {
    var block, j := Block(decoded, start, end), BlockIndex(decoded, start, end, i);
    var m := RunSimulates(sem, decoded, start, end, addr, i, st, n);
    if CopyRun(sem, block, addr, j, st, n).Left? {
      LeavingAgrees(sem, block, addr, j, st, OriginalRun(sem, decoded, end, i, st, n), m, n);
    }
  }

  // ------------------------------------------- branches into stolen instructions

  /** A direct jump of the block whose target is inside the stolen bytes but no instruction of theirs. */
  predicate LandsInside(decoded: seq<Instr>, start: nat, end: nat, i: nat)
    requires i < |decoded|
  {
    && (decoded[i].kind.Jump? || decoded[i].kind.Branch?)
    && start <= decoded[i].kind.target < end && !InBlock(decoded, decoded[i].kind.target)
  }

  /** Instruction `i` never sends the copy into the overwritten bytes by a direct transfer. */
  ghost predicate StaysOffPatch(decoded: seq<Instr>, start: nat, end: nat, addr: seq<nat>, i: nat)
    requires i < |decoded| && |addr| == |Block(decoded, start, end)|
  {
    forall sem: Sem, st: State ::
      var c := CopyRun(sem, Block(decoded, start, end), addr, BlockIndex(decoded, start, end, i), st,
                                      Cost(sem, decoded, start, end, i, st));
      !decoded[i].kind.Computed? && !decoded[i].kind.ComputedCall? && c.Left? ==> !(start <= c.to < end)
  }

  /** The copy keeps off the patched bytes exactly when no jump or branch lands inside an instruction. */
  lemma CopyStaysOffPatch(decoded: seq<Instr>, start: nat, end: nat, addr: seq<nat>, i: nat)
    requires Stolen(decoded, start, end) && i < |decoded| && |addr| == |Block(decoded, start, end)|
    ensures StaysOffPatch(decoded, start, end, addr, i) <==> !LandsInside(decoded, start, end, i)
  {
    if LandsInside(decoded, start, end, i) {
      var sem := Sem((op: nat, st: State) => st, (op: nat, st: State) => true, (op: nat, st: State) => 0);
      var st := State(0, map[], 0);
      StepSimulates(sem, decoded, start, end, addr, i, st);
    } else {
      forall sem: Sem, st: State
        ensures var c := CopyRun(sem, Block(decoded, start, end), addr, BlockIndex(decoded, start, end, i), st,
                  Cost(sem, decoded, start, end, i, st));
                !decoded[i].kind.Computed? && !decoded[i].kind.ComputedCall? && c.Left? ==> !(start <= c.to < end)
      {
        StepSimulates(sem, decoded, start, end, addr, i, st);
        if !decoded[i].kind.Computed? && !decoded[i].kind.ComputedCall? {
          ExitIsOutside(sem, decoded, start, end, i, st);
        }
      }
    }
  }

  lemma ExitIsOutside(sem: Sem, decoded: seq<Instr>, start: nat, end: nat, i: nat, st: State)
    requires Stolen(decoded, start, end) && i < |decoded| && !LandsInside(decoded, start, end, i)
    requires !decoded[i].kind.Computed? && !decoded[i].kind.ComputedCall?
    ensures var o := OriginalStep(sem, decoded, end, i, st); o.Left? ==> !(start <= o.to < end)
  {
    assert !EmulateCall(decoded[i], decoded, start, end).Rejected?;
    FallThrough(decoded, start, end, i, st);
  }
}
