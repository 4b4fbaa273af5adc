/**
 Reading a suspended thread: the words it references (`inspect_thread`,
 `scan_stack`, `mark`) and the traps it is still dispatching (`dispatching`).

 `VirtualQuery` is a contract over the frozen address space: it describes the
 region around an address, the same for every address of the region, and regions
 are word-aligned. `word` reads memory.
 */
module StackScan {
  import opened Options
  import opened ReclaimPass

  const WORD := 8
  const MAX_STACK_SCAN_BYTES := 32 * 1024 * 1024
  const ADDRESS_OFFSET := 16

  /** `readable`: committed and neither no-access nor a guard page. */
  datatype Info = Info(allocation: nat, base: nat, size: nat, readable: bool) {
    function End(): nat { base + size }
  }

  datatype Context = Context(ip: nat, sp: nat, registers: seq<nat>)

  ghost predicate QueryContract(query: nat -> Option<Info>, top: nat) {
    && (forall a: nat :: query(a).Some? ==>
          var i := query(a).value;
          && i.base <= a < i.End() <= top
          && i.base % WORD == 0 && i.End() % WORD == 0
          && forall b: nat :: i.base <= b < i.End() ==> query(b) == query(a))
  }

  predicate SameAllocation(query: nat -> Option<Info>, sp: nat, a: nat) {
    query(sp).Some? && query(a).Some? && query(a).value.allocation == query(sp).value.allocation
  }

  /** `a` is in the stack of a thread at `sp`: no foreign address lies between. */
  ghost predicate OnStack(query: nat -> Option<Info>, sp: nat, a: nat) {
    sp <= a && forall b: nat :: sp <= b <= a ==> SameAllocation(query, sp, b)
  }

  /** An aligned, readable word of the stack at or above the stack pointer. */
  ghost predicate Slot(query: nat -> Option<Info>, sp: nat, a: nat) {
    a % WORD == 0 && OnStack(query, sp, a) && query(a).Some? && query(a).value.readable
  }

  /** Some stack word below `limit` points into `r`. */
  ghost predicate StackHits(query: nat -> Option<Info>, word: nat -> nat, sp: nat, limit: nat, r: Region) {
    exists a: nat :: a < limit && Slot(query, sp, a) && Inside(word(a), r)
  }

  /** The stack has a readable word about as far up as the scan is willing to go. */
  ghost predicate Deep(query: nat -> Option<Info>, sp: nat) {
    exists a: nat :: Slot(query, sp, a) && a + WORD > sp + MAX_STACK_SCAN_BYTES
  }

  /** The query fails somewhere on the stack. */
  ghost predicate Unknown(query: nat -> Option<Info>, sp: nat) {
    exists a: nat :: sp <= a && query(a).None? && forall b: nat :: sp <= b < a ==> SameAllocation(query, sp, b)
  }

  // ------------------------------------------------------------------- mark

  /** Marks every region `addr` falls inside. */
  method Mark(addr: nat, regions: seq<Region>, busy: array<bool>)
    requires busy.Length == |regions|
    modifies busy
    ensures forall i :: 0 <= i < busy.Length ==> (busy[i] <==> old(busy[i]) || Inside(addr, regions[i]))
  {
    for n := 0 to busy.Length
      invariant forall i :: 0 <= i < n ==> (busy[i] <==> old(busy[i]) || Inside(addr, regions[i]))
      invariant forall i :: n <= i < busy.Length ==> busy[i] == old(busy[i])
    {
      if !busy[n] && Inside(addr, regions[n]) {
        busy[n] := true;
      }
    }
  }

  // ------------------------------------------------------------- scan_stack

  function AlignUp(a: nat): (r: nat)
    ensures a <= r < a + WORD && r % WORD == 0
  {
    if a % WORD == 0 then a else a + WORD - a % WORD
  }

  /** A region of the stack: every address of it up to its end is on the stack. */
  lemma RegionOnStack(query: nat -> Option<Info>, top: nat, sp: nat, addr: nat)
    requires QueryContract(query, top) && query(addr).Some? && sp <= addr
    requires forall b: nat :: sp <= b < addr ==> SameAllocation(query, sp, b)
    requires SameAllocation(query, sp, addr)
    ensures forall b: nat :: sp <= b < query(addr).value.End() ==> SameAllocation(query, sp, b)
    ensures forall b: nat :: addr <= b < query(addr).value.End() ==> query(b) == query(addr)
  {
    var i := query(addr).value;
    forall b: nat | addr <= b < i.End() ensures query(b) == query(addr) {
      assert i.base <= b < i.End();
    }
  }

  /** Scans the words of one readable region from `addr` on; false if the byte budget ran out. */
  method ScanRegion(query: nat -> Option<Info>, word: nat -> nat, sp: nat, addr: nat, end: nat, scanned: nat,
                    regions: seq<Region>, busy: array<bool>)
    returns (ok: bool, total: nat)
    requires busy.Length == |regions| && sp <= addr < end && end % WORD == 0
    requires forall a: nat :: addr <= a < end ==> OnStack(query, sp, a) && query(a).Some? && query(a).value.readable
    requires sp + scanned <= addr
    modifies busy
    ensures if ok then sp + total <= end else Deep(query, sp)
    ensures forall i :: 0 <= i < busy.Length ==> (old(busy[i]) ==> busy[i])
    ensures forall i :: 0 <= i < busy.Length && busy[i] ==> old(busy[i]) || StackHits(query, word, sp, end, regions[i])
    ensures ok ==> forall i, a: nat ::
              0 <= i < busy.Length && addr <= a < end && a % WORD == 0 && Inside(word(a), regions[i]) ==> busy[i]
  {
    total := scanned;
    var slot := AlignUp(addr);
    while slot + WORD <= end
      invariant slot % WORD == 0 && addr <= slot <= end && sp + total <= slot
      invariant forall i :: 0 <= i < busy.Length ==> (old(busy[i]) ==> busy[i])
      invariant forall i ::
                  0 <= i < busy.Length && busy[i] ==> old(busy[i]) || StackHits(query, word, sp, end, regions[i])
      invariant forall i, a: nat ::
                  0 <= i < busy.Length && addr <= a < slot && a % WORD == 0 && Inside(word(a), regions[i]) ==> busy[i]
    {
      total := total + WORD;
      assert Slot(query, sp, slot);
      if total > MAX_STACK_SCAN_BYTES {
        return false, total;
      }
      Mark(word(slot), regions, busy);
      slot := slot + WORD;
    }
    ok := true;
  }

  /**
   Walks a suspended thread's stack from its stack pointer to the end of its
   reservation. If it reports completion, the regions marked are exactly those
   marked before and those some stack word points into. It does so unless a query fails
   or the stack is too deep.
   */
  method ScanStack(query: nat -> Option<Info>, word: nat -> nat, top: nat, sp: nat, regions: seq<Region>,
                   busy: array<bool>)
    returns (ok: bool)
    requires QueryContract(query, top) && busy.Length == |regions|
    modifies busy
    ensures forall i :: 0 <= i < busy.Length && busy[i] ==> old(busy[i]) || StackHits(query, word, sp, top, regions[i])
    ensures forall i :: 0 <= i < busy.Length && old(busy[i]) ==> busy[i]
    ensures ok ==> forall i :: 0 <= i < busy.Length && StackHits(query, word, sp, top, regions[i]) ==> busy[i]
    ensures !ok ==> Unknown(query, sp) || Deep(query, sp)
  {
    var first := query(sp);
    if first.None? {
      return false;
    }
    var scanned, addr := 0, sp;
    while true
      invariant sp <= addr <= top && sp + scanned <= addr
      invariant forall b: nat :: sp <= b < addr ==> SameAllocation(query, sp, b)
      invariant forall i :: 0 <= i < busy.Length && busy[i] ==>
                old(busy[i]) || StackHits(query, word, sp, top, regions[i])
      invariant forall i :: 0 <= i < busy.Length && old(busy[i]) ==> busy[i]
      invariant forall i :: 0 <= i < busy.Length && StackHits(query, word, sp, addr, regions[i]) ==> busy[i]
      decreases top - addr
    {
      var info := query(addr);
      if info.None? {
        return false;
      }
      if info.value.allocation != first.value.allocation {
        assert !SameAllocation(query, sp, addr);
        assert forall a: nat :: Slot(query, sp, a) ==> a < addr;
        return true;
      }
      RegionOnStack(query, top, sp, addr);
      var end := info.value.End();
      if info.value.readable {
        var fits;
        fits, scanned := ScanRegion(query, word, sp, addr, end, scanned, regions, busy);
        if !fits {
          return false;
        }
      }
      addr := end;
    }
  }

  // --------------------------------------------------------- inspect_thread

  /** A thread's references: instruction pointer, general registers, stack words. */
  ghost predicate ThreadReferences(query: nat -> Option<Info>, word: nat -> nat, top: nat, c: Context, r: Region) {
    || Inside(c.ip, r)
    || (exists k :: 0 <= k < |c.registers| && Inside(c.registers[k], r))
    || StackHits(query, word, c.sp, top, r)
  }

  /** Marks exactly what the thread references, or reports that it could not be inspected in full. */
  method InspectThread(query: nat -> Option<Info>, word: nat -> nat, top: nat, context: Option<Context>,
                       regions: seq<Region>, busy: array<bool>)
    returns (ok: bool)
    requires QueryContract(query, top) && busy.Length == |regions|
    modifies busy
    ensures !ok ==> context.None? || Unknown(query, context.value.sp) || Deep(query, context.value.sp)
    ensures context.None? ==> !ok
    ensures forall i :: 0 <= i < busy.Length && old(busy[i]) ==> busy[i]
    ensures ok ==> forall i :: 0 <= i < busy.Length ==>
              (busy[i] <==> old(busy[i]) || ThreadReferences(query, word, top, context.value, regions[i]))
  {
    if context.None? {
      return false;
    }
    var c := context.value;
    Mark(c.ip, regions, busy);
    for n := 0 to |c.registers|
      invariant forall i :: 0 <= i < busy.Length ==>
                  (busy[i] <==> old(busy[i]) || Inside(c.ip, regions[i])
                                || exists k :: 0 <= k < n && Inside(c.registers[k], regions[i]))
    {
      Mark(c.registers[n], regions, busy);
    }
    ok := ScanStack(query, word, top, c.sp, regions, busy);
  }

  // ------------------------------------------------------------ dispatching

  /**
   An exception record whose `ExceptionAddress` is the stack word at `a`: the
   code sits `ADDRESS_OFFSET` bytes before it in the same readable region.
   */
  ghost predicate RecordAt(query: nat -> Option<Info>, word: nat -> nat, half: nat -> int, sp: nat, code: int,
                           trap: nat -> bool, a: nat)
  {
    && Slot(query, sp, a) && trap(word(a))
    && a >= ADDRESS_OFFSET + (if query(a).value.base < sp then sp else query(a).value.base)
    && half(a - ADDRESS_OFFSET) == code
  }

  lemma UnalignedBetween(hi: nat, a: nat)
    requires hi % WORD == 0 && a < hi < a + WORD
    ensures a % WORD != 0
  {
  }

  /** Addresses less than a word below an aligned one hold no record. */
  lemma NoRecordBetween(query: nat -> Option<Info>, word: nat -> nat, half: nat -> int, sp: nat, code: int,
                        trap: nat -> bool, hi: nat)
    requires hi % WORD == 0
    ensures forall a: nat :: a < hi < a + WORD ==> !RecordAt(query, word, half, sp, code, trap, a)
  {
    forall a: nat | a < hi < a + WORD ensures !RecordAt(query, word, half, sp, code, trap, a) {
      UnalignedBetween(hi, a);
    }
  }

  lemma AlignedEnd(slot: nat, end: nat)
    requires slot % WORD == 0 && end % WORD == 0 && slot + WORD > end
    ensures slot >= end
  {
  }

  /** The region after one starts where that one ends. */
  lemma NextRegionStarts(query: nat -> Option<Info>, top: nat, addr: nat)
    requires QueryContract(query, top) && query(addr).Some?
    ensures var end := query(addr).value.End();
            addr < end <= top && (query(end).Some? ==> query(end).value.base == end)
  {
    var end := query(addr).value.End();
    assert query(end - 1) == query(addr);
  }

  /** Looks for a matching record in one readable region. */
  method RegionDispatches(query: nat -> Option<Info>, word: nat -> nat, half: nat -> int, sp: nat, info: Info,
                          code: int,
                          trap: nat -> bool, scanned: nat)
    returns (found: bool, gaveUp: bool, total: nat)
    requires info.readable && info.End() % WORD == 0 && sp < info.End()
    requires forall a: nat :: sp <= a && info.base <= a < info.End() ==> OnStack(query, sp, a) && query(a) == Some(info)
    requires sp + scanned <= if info.base < sp then sp else info.base
    ensures found ==> exists a: nat :: RecordAt(query, word, half, sp, code, trap, a)
    ensures gaveUp ==> Deep(query, sp)
    ensures !found && !gaveUp ==>
              forall a: nat :: info.base <= a < info.End() ==> !RecordAt(query, word, half, sp, code, trap, a)
    ensures !found && !gaveUp ==> sp + total <= info.End()
  {
    total, gaveUp := scanned, false;
    var start := if info.base < sp then sp else info.base;
    var slot := AlignUp(start);
    NoRecordBetween(query, word, half, sp, code, trap, slot);
    while slot + WORD <= info.End()
      invariant slot % WORD == 0 && start <= slot && sp + total <= slot
      invariant total == scanned || slot <= info.End()
      invariant forall a: nat :: info.base <= a < slot ==> !RecordAt(query, word, half, sp, code, trap, a)
    {
      total := total + WORD;
      if total > MAX_STACK_SCAN_BYTES {
        assert Slot(query, sp, slot);
        return false, true, total;
      }
      if trap(word(slot)) && slot >= start + ADDRESS_OFFSET && half(slot - ADDRESS_OFFSET) == code {
        assert RecordAt(query, word, half, sp, code, trap, slot);
        return true, false, total;
      }
      NoRecordBetween(query, word, half, sp, code, trap, slot + WORD);
      slot := slot + WORD;
    }
    AlignedEnd(slot, info.End());
    found := false;
  }

  /**
   Whether a suspended thread may still be dispatching a trap. A `false` answer
   means its instruction pointer is not at (or just past) a trap and no matching
   exception record is on its stack. A `true` answer means that it is or has one, or that
   the thread could not be read in full: no context, a failed query, or too deep a stack.
   */
  method Dispatching(query: nat -> Option<Info>, word: nat -> nat, half: nat -> int, top: nat, context: Option<Context>,
                     code: int, trap: nat -> bool)
    returns (r: bool)
    requires QueryContract(query, top)
    ensures !r ==>
              && context.Some? && !trap(context.value.ip) && (context.value.ip > 0 ==> !trap(context.value.ip - 1))
              && forall a: nat :: !RecordAt(query, word, half, context.value.sp, code, trap, a)
    ensures r && context.Some? ==>
              || trap(context.value.ip) || (context.value.ip > 0 && trap(context.value.ip - 1))
              || (exists a: nat :: RecordAt(query, word, half, context.value.sp, code, trap, a))
              || Unknown(query, context.value.sp) || Deep(query, context.value.sp)
  {
    if context.None? {
      return true;
    }
    var c := context.value;
    if trap(c.ip) || (c.ip > 0 && trap(c.ip - 1)) {
      return true;
    }
    var sp := c.sp;
    var first := query(sp);
    if first.None? {
      return true;
    }
    var scanned, addr := 0, sp;
    while true
      invariant sp <= addr <= top && sp + scanned <= addr
      invariant addr == sp || (query(addr).Some? ==> query(addr).value.base == addr)
      invariant forall b: nat :: sp <= b < addr ==> SameAllocation(query, sp, b)
      invariant forall a: nat :: a < addr ==> !RecordAt(query, word, half, sp, code, trap, a)
      decreases top - addr
    {
      var info := query(addr);
      if info.None? {
        return true;
      }
      if info.value.allocation != first.value.allocation {
        assert !SameAllocation(query, sp, addr);
        assert forall a: nat :: Slot(query, sp, a) ==> a < addr;
        return false;
      }
      RegionOnStack(query, top, sp, addr);
      if info.value.readable {
        var found, gaveUp;
        found, gaveUp, scanned := RegionDispatches(query, word, half, sp, info.value, code, trap, scanned);
        if found || gaveUp {
          return true;
        }
      }
      NextRegionStarts(query, top, addr);
      addr := info.value.End();
    }
  }
}
