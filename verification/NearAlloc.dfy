/**
 Placing a trampoline near its target: the closest aligned start in a free region,
 the walk over the regions of the window, and the allocation attempts.
 */
module NearAlloc {
  import opened Options

  // --------------------------------------------------------------- alignment

  function AlignDown(a: nat, align: nat): (r: nat)
    requires align > 0
    ensures r % align == 0 && r <= a < r + align
  {
    Multiple(a / align, align);
    a / align * align
  }

  function AlignUp(a: nat, align: nat): (r: nat)
    requires align > 0
    ensures r % align == 0 && a <= r < a + align
  {
    AlignDown(a + align - 1, align)
  }

  lemma {:induction false} Apart(p: nat, q: nat, k: nat)
    requires p < q
    ensures p * k + k <= q * k
    decreases q
  {
    if p + 1 < q {
      Apart(p, q - 1, k);
      assert q * k == (q - 1) * k + k;
    } else {
      assert q * k == p * k + k;
    }
  }

  lemma Multiple(q: nat, k: nat)
    requires k > 0
    ensures q * k % k == 0
  {
    var n := q * k;
    var p, r := n / k, n % k;
    assert n == p * k + r;
    if p < q {
      Apart(p, q, k);
    } else if q < p {
      Apart(q, p, k);
    }
  }

  /** Distinct multiples of `k` are at least `k` apart. */
  lemma GridPoints(a: nat, b: nat, k: nat)
    requires k > 0 && a % k == 0 && b % k == 0 && a < b
    ensures b - a >= k
  {
    var p, q := a / k, b / k;
    assert a == p * k && b == q * k;
    if p < q {
      Apart(p, q, k);
    } else if q < p {
      Apart(q, p, k);
    }
  }

  // ------------------------------------------------------- one free region

  function Max(a: nat, b: nat): nat { if a > b then a else b }
  function Min(a: nat, b: nat): nat { if a < b then a else b }
  function Distance(a: nat, b: nat): nat { if a > b then a - b else b - a }
  function Clamp(x: nat, lo: nat, hi: nat): nat
    requires lo <= hi
  {
    if x < lo then lo else if x > hi then hi else x
  }

  /** The allocation window and what is to be placed in it. */
  datatype Request = Request(target: nat, size: nat, minAddr: nat, maxAddr: nat, align: nat)

  /** `start` is an aligned, non-null start whose `size` bytes lie in the region and in the window. */
  predicate Hosts(q: Request, regionStart: nat, regionEnd: nat, start: nat) {
    && q.align > 0 && start % q.align == 0 && start >= q.align
    && regionStart <= start && start + q.size <= regionEnd
    && q.minAddr <= start && start + q.size <= q.maxAddr
  }

  /** `x` is at least as good a start as `y`: closer to the target, the lower one on a tie. */
  predicate Better(q: Request, x: nat, y: nat) {
    || Distance(x, q.target) < Distance(y, q.target)
    || (Distance(x, q.target) == Distance(y, q.target) && x <= y)
  }

  /** Of the aligned points of [lo, hi], the two next to the clamped target beat all others. */
  lemma NeighboursWin(q: Request, lo: nat, hi: nat, y: nat)
    requires q.align > 0 && lo <= y <= hi && y % q.align == 0
    ensures var ideal := Clamp(q.target, lo, hi);
            var down, up := AlignDown(ideal, q.align), AlignUp(ideal, q.align);
            || (lo <= down && y <= down && Better(q, down, y))
            || (up <= hi && y >= up && Better(q, up, y))
  {
    var ideal := Clamp(q.target, lo, hi);
    var down, up := AlignDown(ideal, q.align), AlignUp(ideal, q.align);
    if y <= ideal {
      if down < y {
        GridPoints(down, y, q.align);
      }
    } else if y < up {
      GridPoints(y, up, q.align);
    }
  }

  /** The fallback of `nearest_aligned_candidate` finds nothing the two neighbours have missed. */
  lemma FallbackNeverFires(q: Request, lo: nat, hi: nat)
    requires q.align > 0 && lo <= hi
    requires var ideal := Clamp(q.target, lo, hi);
             AlignDown(ideal, q.align) < lo && AlignUp(ideal, q.align) > hi
    ensures AlignUp(lo, q.align) > hi
  {
    if AlignUp(lo, q.align) <= hi {
      NeighboursWin(q, lo, hi, AlignUp(lo, q.align));
    }
  }

  /** The lowest aligned point of [lo, hi], if there is one. */
  function Lowest(lo: nat, hi: nat, align: nat): Option<nat>
    requires align > 0
  {
    var snapped := AlignUp(lo, align);
    if snapped <= hi then Some(snapped) else None
  }

  /** The closest start the region can host, and `None` exactly when it can host none. */
  method NearestAlignedCandidate(q: Request, regionStart: nat, regionEnd: nat) returns (best: Option<nat>)
    requires q.align > 0
    ensures best.Some? ==> Hosts(q, regionStart, regionEnd, best.value)
    ensures best.Some? ==> forall y: nat :: Hosts(q, regionStart, regionEnd, y) ==> Better(q, best.value, y)
    ensures best.None? ==> forall y: nat :: !Hosts(q, regionStart, regionEnd, y)
  {
    if regionEnd < q.size || q.maxAddr < q.size {
      return None;
    }
    var lo := Max(Max(regionStart, q.minAddr), Max(q.align, 1));
    var hi := Min(regionEnd - q.size, q.maxAddr - q.size);
    if lo > hi {
      return None;
    }
    var ideal := Clamp(q.target, lo, hi);
    var down, up := AlignDown(ideal, q.align), AlignUp(ideal, q.align);
    var cands := [down, up];
    best := None;
    for i := 0 to 2
      invariant best.Some? ==> best.value % q.align == 0 && lo <= best.value <= hi
      invariant i >= 1 && lo <= down <= hi ==> best.Some? && Better(q, best.value, down)
      invariant i >= 2 && lo <= up <= hi ==> best.Some? && Better(q, best.value, up)
      invariant i <= 1 && best.Some? ==> best.value == down
    {
      var cand := cands[i];
      if lo <= cand <= hi {
        if best.None? || Distance(best.value, q.target) > Distance(cand, q.target) {
          best := Some(cand);
        }
      }
    }
    forall y: nat | Hosts(q, regionStart, regionEnd, y)
      ensures best.Some? && Better(q, best.value, y)
    {
      NeighboursWin(q, lo, hi, y);
    }
    if best.None? {
      FallbackNeverFires(q, lo, hi);
      best := Lowest(lo, hi, q.align);
    }
  }

  // ------------------------------------------------------- the region walk

  datatype Region = Region(base: nat, size: nat, free: bool)

  /** `VirtualQuery`: the region an address lies in, or a failure. */
  type Query = nat -> Option<Region>

  /** The regions the walk from `a` looks at. It stops at a failed query and where a region does not lead on. */
  function Visited(query: Query, a: nat, max: nat): seq<Region>
    decreases max - a
  {
    if a >= max then []
    else match query(a) {
      case None => []
      case Some(r) => [r] + if r.base + r.size <= a then [] else Visited(query, r.base + r.size, max)
    }
  }

  /** A start that a visited region can host. */
  predicate Offers(q: Request, r: Region, y: nat) {
    r.free && Hosts(q, r.base, r.base + r.size, y)
  }

  ghost function OffersOf(q: Request): (Region, nat) -> bool { (r: Region, y: nat) => Offers(q, r, y) }
  ghost function BetterOf(q: Request): (nat, nat) -> bool { (x: nat, y: nat) => Better(q, x, y) }

  ghost predicate Offered(offers: (Region, nat) -> bool, regions: seq<Region>, y: nat) {
    exists r :: r in regions && offers(r, y)
  }

  ghost predicate Beaten(better: (nat, nat) -> bool, cands: seq<nat>, y: nat) {
    exists c :: c in cands && better(c, y)
  }

  /** The candidates are offered, and every offered start is matched or beaten by one of them. */
  ghost predicate Covers(offers: (Region, nat) -> bool, better: (nat, nat) -> bool, regions: seq<Region>,
                         cands: seq<nat>) {
    && (forall c :: c in cands ==> Offered(offers, regions, c))
    && (forall y: nat :: Offered(offers, regions, y) ==> Beaten(better, cands, y))
  }

  lemma OfferedMore(offers: (Region, nat) -> bool, regions: seq<Region>, r: Region, y: nat)
    ensures Offered(offers, regions + [r], y) <==> Offered(offers, regions, y) || offers(r, y)
  {
    if offers(r, y) {
      assert r in regions + [r];
    }
  }

  lemma BeatenMore(better: (nat, nat) -> bool, cands: seq<nat>, more: seq<nat>, y: nat)
    ensures Beaten(better, cands + more, y) <==> Beaten(better, cands, y) || Beaten(better, more, y)
  {
    assert forall c :: c in cands + more <==> c in cands || c in more;
  }

  lemma CoversMore(offers: (Region, nat) -> bool, better: (nat, nat) -> bool, regions: seq<Region>, cands: seq<nat>,
                   r: Region, more: seq<nat>)
    requires Covers(offers, better, regions, cands)
    requires forall c :: c in more ==> offers(r, c)
    requires forall y: nat :: offers(r, y) ==> Beaten(better, more, y)
    ensures Covers(offers, better, regions + [r], cands + more)
  {
    forall c | c in cands + more ensures Offered(offers, regions + [r], c) {
      OfferedMore(offers, regions, r, c);
    }
    forall y: nat | Offered(offers, regions + [r], y) ensures Beaten(better, cands + more, y) {
      OfferedMore(offers, regions, r, y);
      BeatenMore(better, cands, more, y);
    }
  }

  /** What the walk takes from one region. */
  method FromRegion(q: Request, region: Region) returns (found: seq<nat>)
    requires q.align > 0
    ensures forall c :: c in found ==> Offers(q, region, c)
    ensures forall y: nat :: Offers(q, region, y) ==> Beaten(BetterOf(q), found, y)
  {
    found := [];
    if region.free && region.size >= q.size {
      var candidate := NearestAlignedCandidate(q, region.base, region.base + region.size);
      if candidate.Some? {
        found := [candidate.value];
        forall y: nat | Offers(q, region, y) ensures Beaten(BetterOf(q), found, y) {
          assert candidate.value in found && BetterOf(q)(candidate.value, y);
        }
      }
    }
  }

  lemma WalkOn(query: Query, a: nat, max: nat, seen: seq<Region>, all: seq<Region>)
    requires a < max && query(a).Some? && seen + Visited(query, a, max) == all
    ensures var r := query(a).value;
            (seen + [r]) + (if r.base + r.size <= a then [] else Visited(query, r.base + r.size, max)) == all
  {
  }

  /** Collects the best start of every free region of the window. */
  method Candidates(q: Request, query: Query) returns (cands: seq<nat>)
    requires q.align > 0
    ensures Covers(OffersOf(q), BetterOf(q), Visited(query, q.minAddr, q.maxAddr), cands)
  {
    cands := [];
    var current, walking := q.minAddr, true;
    ghost var all, seen: seq<Region> := Visited(query, q.minAddr, q.maxAddr), [];
    while walking && current < q.maxAddr
      invariant walking ==> seen + Visited(query, current, q.maxAddr) == all
      invariant !walking ==> seen == all
      invariant Covers(OffersOf(q), BetterOf(q), seen, cands)
      decreases walking, q.maxAddr - current
    {
      var answer := query(current);
      if answer.None? {
        walking := false;
      } else {
        var region := answer.value;
        var found := FromRegion(q, region);
        CoversMore(OffersOf(q), BetterOf(q), seen, cands, region, found);
        WalkOn(query, current, q.maxAddr, seen, all);
        cands := cands + found;
        seen := seen + [region];
        var next := region.base + region.size;
        if next <= current {
          walking := false;
        } else {
          current := next;
        }
      }
    }
  }

  // ------------------------------------------------------------- sorting

  function Insert(target: nat, c: nat, s: seq<nat>): seq<nat> {
    if s == [] || Distance(c, target) < Distance(s[0], target) then [c] + s else [s[0]] + Insert(target, c, s[1..])
  }

  /** `sort_by_key` on the distance to the target. */
  function Sorted(target: nat, s: seq<nat>): seq<nat> {
    if s == [] then [] else Insert(target, s[|s| - 1], Sorted(target, s[..|s| - 1]))
  }

  ghost predicate Ascending(target: nat, s: seq<nat>) {
    forall j, k :: 0 <= j <= k < |s| ==> Distance(s[j], target) <= Distance(s[k], target)
  }

  lemma {:induction false} InsertSorts(target: nat, c: nat, s: seq<nat>)
    requires Ascending(target, s)
    ensures Ascending(target, Insert(target, c, s))
    decreases |s|
  {
    if s != [] && Distance(c, target) >= Distance(s[0], target) {
      var r := Insert(target, c, s[1..]);
      InsertSorts(target, c, s[1..]);
      forall k | 0 <= k < |r| ensures Distance(s[0], target) <= Distance(r[k], target) {
        InsertMembers(target, c, s[1..], k);
      }
    }
  }

  lemma {:induction false} InsertMembers(target: nat, c: nat, s: seq<nat>, k: nat)
    requires k < |Insert(target, c, s)|
    ensures Insert(target, c, s)[k] == c || Insert(target, c, s)[k] in s
    decreases |s|
  {
    if s != [] && Distance(c, target) >= Distance(s[0], target) && k > 0 {
      InsertMembers(target, c, s[1..], k - 1);
    }
  }

  lemma {:induction false} InsertAdds(target: nat, c: nat, s: seq<nat>)
    ensures multiset(Insert(target, c, s)) == multiset(s) + multiset{c}
    decreases |s|
  {
    if s != [] && Distance(c, target) >= Distance(s[0], target) {
      InsertAdds(target, c, s[1..]);
      assert s == [s[0]] + s[1..];
    }
  }

  lemma {:induction false} SortedSorts(target: nat, s: seq<nat>)
    ensures Ascending(target, Sorted(target, s)) && multiset(Sorted(target, s)) == multiset(s)
    decreases |s|
  {
    if s != [] {
      SortedSorts(target, s[..|s| - 1]);
      InsertSorts(target, s[|s| - 1], Sorted(target, s[..|s| - 1]));
      InsertAdds(target, s[|s| - 1], Sorted(target, s[..|s| - 1]));
      assert s == s[..|s| - 1] + [s[|s| - 1]];
    }
  }

  // ------------------------------------------------------------ allocating

  /** `VirtualAlloc` at the `k`-th try: the block it hands out, if any. It need not be where it was asked for. */
  type Grant = (nat, nat) -> Option<nat>

  predicate InWindow(q: Request, start: nat) { q.minAddr <= start && start + q.size <= q.maxAddr }

  predicate Accepts(q: Request, grant: Grant, k: nat, cand: nat) {
    grant(k, cand).Some? && InWindow(q, grant(k, cand).value)
  }

  /** The blocks handed out for the first `n` candidates. */
  function Handed(grant: Grant, cands: seq<nat>, n: nat): seq<nat>
    requires n <= |cands|
  {
    if n == 0 then []
    else Handed(grant, cands, n - 1)
         + match grant(n - 1, cands[n - 1]) { case Some(b) => [b] case None => [] }
  }

  /** Tries candidate after candidate; what is handed out and not used is given back. */
  method TryAll(q: Request, cands: seq<nat>, grant: Grant) returns (r: Option<nat>, tried: nat, freed: seq<nat>)
    ensures tried <= |cands|
    ensures r.Some? <==> exists k :: 0 <= k < |cands| && Accepts(q, grant, k, cands[k])
    ensures r.Some? ==>
              tried > 0 && Accepts(q, grant, tried - 1, cands[tried - 1]) && r == grant(tried - 1, cands[tried - 1])
    ensures forall k :: 0 <= k < |cands| && Accepts(q, grant, k, cands[k]) ==> r.Some? && k >= tried - 1
    ensures r.None? ==> tried == |cands|
    ensures freed + (if r.Some? then [r.value] else []) == Handed(grant, cands, tried)
  {
    tried, freed := 0, [];
    while tried < |cands|
      invariant tried <= |cands|
      invariant forall k :: 0 <= k < tried ==> !Accepts(q, grant, k, cands[k])
      invariant freed == Handed(grant, cands, tried)
    {
      var block := grant(tried, cands[tried]);
      tried := tried + 1;
      if block.Some? {
        if InWindow(q, block.value) {
          return block, tried, freed;
        }
        freed := freed + [block.value];
      }
    }
    r := None;
  }

  // ----------------------------------------------------------- the whole call

  const REL32_MAX := 0x7FFF_FFFF
  const ONE_MIB := 0x10_0000

  datatype System = System(granularity: nat, minApp: nat, maxApp: nat)

  /** The window: rel32 range less 1 MiB and the block, clamped to usable, non-null addresses. */
  function Window(target: nat, size: nat, si: System): Request {
    var buffer := ONE_MIB + size;
    var range := if REL32_MAX > buffer then REL32_MAX - buffer else 0;
    var low := if target > range then target - range else 0;
    Request(target, size, Max(Max(low, si.minApp), si.granularity), Min(target + range, si.maxApp), si.granularity)
  }

  /** Every instruction from the target to 1 MiB past it reaches every byte of the block, and back. */
  lemma WindowReaches(target: nat, size: nat, si: System, start: nat, site: nat, b: nat)
    requires size > 0 && InWindow(Window(target, size, si), start)
    requires target <= site <= target + ONE_MIB && start <= b <= start + size
    ensures Distance(site, b) <= REL32_MAX
  {
  }

  /** The window is as wide as it can be: a block is in it exactly if it is usable and near enough to the target. */
  lemma WindowIsWide(target: nat, size: nat, si: System, start: nat)
    requires size > 0
    ensures InWindow(Window(target, size, si), start)
            <==> && start >= si.minApp && start >= si.granularity && start + size <= si.maxApp
                 && Distance(start, target) + ONE_MIB + size <= REL32_MAX
                 && Distance(start + size, target) + ONE_MIB + size <= REL32_MAX
  {
  }

  /** The regions the walk looks at for this request. */
  ghost function Walked(q: Request, query: Query): seq<Region> { Visited(query, q.minAddr, q.maxAddr) }

  /** The order of the attempts: offered starts only, nearest first, the first one nearest of all that are offered. */
  ghost predicate InOrder(q: Request, regions: seq<Region>, cands: seq<nat>) {
    && Ascending(q.target, cands)
    && (forall c :: c in cands ==> Offered(OffersOf(q), regions, c))
    && (forall y: nat :: Offered(OffersOf(q), regions, y) ==>
          cands != [] && Distance(cands[0], q.target) <= Distance(y, q.target))
  }

  lemma SortedInOrder(q: Request, regions: seq<Region>, found: seq<nat>, cands: seq<nat>)
    requires Covers(OffersOf(q), BetterOf(q), regions, found)
    requires Ascending(q.target, cands) && multiset(cands) == multiset(found)
    ensures InOrder(q, regions, cands)
  {
    SameMembers(cands, found);
    forall y: nat | Offered(OffersOf(q), regions, y)
      ensures cands != [] && Distance(cands[0], q.target) <= Distance(y, q.target)
    {
      BestIsFirst(q, cands, found, y);
    }
  }

  lemma SameMembers(s: seq<nat>, t: seq<nat>)
    requires multiset(s) == multiset(t)
    ensures forall c :: c in s <==> c in t
  {
    assert forall c :: c in s <==> c in multiset(s);
    assert forall c :: c in t <==> c in multiset(t);
  }

  lemma BestIsFirst(q: Request, cands: seq<nat>, found: seq<nat>, y: nat)
    requires Beaten(BetterOf(q), found, y) && (forall c :: c in found ==> c in cands) && Ascending(q.target, cands)
    ensures cands != [] && Distance(cands[0], q.target) <= Distance(y, q.target)
  {
    var c: nat :| c in found && BetterOf(q)(c, y);
    assert c in cands;
    var k :| 0 <= k < |cands| && cands[k] == c;
    assert Distance(cands[0], q.target) <= Distance(cands[k], q.target);
  }

  /** `alloc_nearby`; `cands` are the starts in the order they are to be tried, `tried` of which were. */
  method AllocNearby(target: nat, size: nat, si: System, query: Query, grant: Grant)
    returns (r: Option<nat>, cands: seq<nat>, tried: nat, freed: seq<nat>)
    requires si.granularity > 0
    ensures size == 0 ==> r.None? && tried == 0
    ensures r.Some? ==> InWindow(Window(target, size, si), r.value)
    ensures size > 0 ==> InOrder(Window(target, size, si), Walked(Window(target, size, si), query), cands)
    ensures r.None? ==>
              (forall k :: 0 <= k < |cands| ==> !Accepts(Window(target, size, si), grant, k, cands[k]))
              && tried == |cands|
    ensures r.Some? ==>
              && 0 < tried <= |cands| && Accepts(Window(target, size, si), grant, tried - 1, cands[tried - 1])
              && r == grant(tried - 1, cands[tried - 1])
              && forall k :: 0 <= k < tried - 1 ==> !Accepts(Window(target, size, si), grant, k, cands[k])
    ensures tried <= |cands| && freed + (if r.Some? then [r.value] else []) == Handed(grant, cands, tried)
  {
    if size == 0 {
      return None, [], 0, [];
    }
    var q := Window(target, size, si);
    var found := Candidates(q, query);
    SortedSorts(target, found);
    cands := Sorted(target, found);
    SortedInOrder(q, Walked(q, query), found, cands);
    r, tried, freed := TryAll(q, cands, grant);
  }

  ghost predicate Describes(query: Query, a: nat) {
    query(a).Some? && query(a).value.base <= a < query(a).value.base + query(a).value.size
  }

  ghost predicate SameRegion(query: Query, a: nat, b: nat) {
    Describes(query, a) && query(a).value.base <= b < query(a).value.base + query(a).value.size ==> query(b) == query(a)
  }

  /** A query that describes one layout of the addresses from `low` up to `high`. */
  ghost predicate Consistent(query: Query, low: nat, high: nat) {
    && (forall a: nat :: low <= a < high ==> Describes(query, a))
    && (forall a: nat, b: nat :: low <= a < high && low <= b < high ==> SameRegion(query, a, b))
  }

  /** The walk looks at the region of every address of the window. */
  lemma {:induction false} WalkMissesNothing(query: Query, a: nat, max: nat, y: nat)
    requires Consistent(query, a, max) && a <= y < max
    ensures Describes(query, y) && query(y).value in Visited(query, a, max)
    decreases max - a
  {
    assert Describes(query, a) && Describes(query, y) && SameRegion(query, a, y);
    var r := query(a).value;
    if y >= r.base + r.size {
      WalkMissesNothing(query, r.base + r.size, max, y);
    }
  }

  /** Hence no free placement in the window is closer than the first one tried. */
  lemma FirstTryIsNearest(target: nat, size: nat, si: System, query: Query, cands: seq<nat>, y: nat)
    requires size > 0 && Consistent(query, Window(target, size, si).minAddr, Window(target, size, si).maxAddr)
    requires InOrder(Window(target, size, si), Walked(Window(target, size, si), query), cands)
    requires Describes(query, y) && Offers(Window(target, size, si), query(y).value, y)
    ensures cands != [] && Distance(cands[0], target) <= Distance(y, target)
  {
    var q := Window(target, size, si);
    WalkMissesNothing(query, q.minAddr, q.maxAddr, y);
    assert query(y).value in Walked(q, query) && OffersOf(q)(query(y).value, y);
    assert Offered(OffersOf(q), Walked(q, query), y);
  }
}
