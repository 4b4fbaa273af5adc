/**
 Page-batched code writes: every touched page is made writable with its own execute
 permission kept, written, and given its own protection back.
 */
module PageWrites {
  import opened Options

  const PAGE_SIZE := 0x1000
  const MAX_BATCH_PAGES := 8
  const ADDRESS_LIMIT := 0x1_0000_0000_0000_0000

  // ------------------------------------------------------------- protections

  type Protect = bv32

  const PAGE_READONLY: Protect := 0x02
  const PAGE_READWRITE: Protect := 0x04
  const PAGE_WRITECOPY: Protect := 0x08
  const PAGE_EXECUTE: Protect := 0x10
  const PAGE_EXECUTE_READ: Protect := 0x20
  const PAGE_EXECUTE_READWRITE: Protect := 0x40
  const PAGE_EXECUTE_WRITECOPY: Protect := 0x80

  predicate Executable(p: Protect) {
    p & (PAGE_EXECUTE | PAGE_EXECUTE_READ | PAGE_EXECUTE_READWRITE | PAGE_EXECUTE_WRITECOPY) != 0
  }

  predicate Writable(p: Protect) {
    p & (PAGE_READWRITE | PAGE_WRITECOPY | PAGE_EXECUTE_READWRITE | PAGE_EXECUTE_WRITECOPY) != 0
  }

  predicate CopyOnWrite(p: Protect) { p & (PAGE_WRITECOPY | PAGE_EXECUTE_WRITECOPY) != 0 }

  /** The protection asked for, made executable if the page was. */
  function AdjustExecute(was: Protect, mode: Protect): (r: Protect)
    ensures mode in [PAGE_READONLY, PAGE_READWRITE, PAGE_WRITECOPY] ==>
              && (Executable(r) <==> Executable(was)) && (Writable(r) <==> Writable(mode))
              && (CopyOnWrite(r) <==> CopyOnWrite(mode))
    ensures !Executable(was) || mode !in [PAGE_READONLY, PAGE_READWRITE, PAGE_WRITECOPY] ==> r == mode
  {
    if Executable(was) then
      if mode == PAGE_READONLY then PAGE_EXECUTE_READ
      else if mode == PAGE_READWRITE then PAGE_EXECUTE_READWRITE
      else if mode == PAGE_WRITECOPY then PAGE_EXECUTE_WRITECOPY
      else mode
    else mode
  }

  // ----------------------------------------------------------------- batches

  function Min(a: nat, b: nat): nat { if a < b then a else b }

  /** Where the batch that starts at `chunk` ends. */
  function BatchEnd(chunk: nat, end: nat): (r: nat)
    requires chunk < end
    ensures chunk < r <= end
    ensures (r - 1) / PAGE_SIZE - chunk / PAGE_SIZE < MAX_BATCH_PAGES
    ensures r < end ==> r % PAGE_SIZE == 0
  {
    Min(chunk / PAGE_SIZE * PAGE_SIZE + MAX_BATCH_PAGES * PAGE_SIZE, end)
  }

  /** Only the last batch may have fewer than eight pages. */
  lemma BatchIsFull(chunk: nat, end: nat)
    requires chunk < end
    ensures var r := BatchEnd(chunk, end);
            r < end ==> (r - 1) / PAGE_SIZE - chunk / PAGE_SIZE == MAX_BATCH_PAGES - 1
  {
  }

  /** The starts of the batches of [chunk, end), and `end`. */
  function Cuts(chunk: nat, end: nat): (cuts: seq<nat>)
    requires chunk <= end
    decreases end - chunk
  {
    [chunk] + if chunk == end then [] else Cuts(BatchEnd(chunk, end), end)
  }

  ghost predicate Consecutive(s: seq<nat>, j: nat, k: nat) {
    k == j + 1 < |s| ==>
      && s[j] < s[k] && (s[k] - 1) / PAGE_SIZE - s[j] / PAGE_SIZE < MAX_BATCH_PAGES
      && (k < |s| - 1 ==> s[k] % PAGE_SIZE == 0 && (s[k] - 1) / PAGE_SIZE - s[j] / PAGE_SIZE == MAX_BATCH_PAGES - 1)
  }

  /**
   The batches tile the range: they start at its start, end at its end, and leave no gap; each has
   eight pages but the last, which has at most eight.
   */
  lemma {:induction false} BatchesTile(chunk: nat, end: nat)
    requires chunk <= end
    ensures var cuts := Cuts(chunk, end);
            && cuts[0] == chunk && cuts[|cuts| - 1] == end
            && forall j: nat, k: nat :: Consecutive(cuts, j, k)
    decreases end - chunk
  {
    if chunk < end {
      var next := BatchEnd(chunk, end);
      BatchIsFull(chunk, end);
      BatchesTile(next, end);
      var rest := Cuts(next, end);
      var cuts := [chunk] + rest;
      assert Cuts(chunk, end) == cuts;
      forall j: nat, k: nat ensures Consecutive(cuts, j, k) {
        if j > 0 && k == j + 1 < |cuts| {
          assert Consecutive(rest, j - 1, k - 1);
        }
      }
    }
  }

  lemma FirstIsCut(start: nat, end: nat)
    requires start <= end
    ensures start in Cuts(start, end)
  {
  }

  lemma {:induction false} NextIsCut(start: nat, end: nat, chunk: nat)
    requires start <= chunk < end && chunk in Cuts(start, end)
    ensures BatchEnd(chunk, end) in Cuts(start, end)
    decreases end - start
  {
    var next := BatchEnd(start, end);
    if chunk == start {
      FirstIsCut(next, end);
    } else {
      CutsRise(next, end, chunk);
      NextIsCut(next, end, chunk);
    }
  }

  lemma {:induction false} CutsRise(start: nat, end: nat, chunk: nat)
    requires start <= end && chunk in Cuts(start, end)
    ensures start <= chunk <= end
    decreases end - start
  {
    if chunk != start {
      CutsRise(BatchEnd(start, end), end, chunk);
    }
  }

  // ------------------------------------------------------------------ memory

  /** Protections after the pages from `first` on are lifted for `mode`. */
  function Opened(prot: seq<Protect>, first: nat, pages: nat, mode: Protect): (r: seq<Protect>)
    requires first + pages <= |prot|
    ensures |r| == |prot|
  {
    seq(|prot|, i requires 0 <= i < |prot| =>
      if first <= i < first + pages then AdjustExecute(prot[i], mode) else prot[i])
  }

  /** The saved protections of a run of pages. */
  datatype PageProtections = PageProtections(first: nat, was: seq<Protect>)

  /** The pages of `saved` restored by calls number `from` on, where these succeed. */
  function Undone(prot: seq<Protect>, saved: PageProtections, restores: nat -> bool, from: nat): (r: seq<Protect>)
    requires saved.first + |saved.was| <= |prot|
    ensures |r| == |prot|
  {
    seq(|prot|, k requires 0 <= k < |prot| =>
      if saved.first <= k < saved.first + |saved.was| && restores(from + (k - saved.first))
      then saved.was[k - saved.first] else prot[k])
  }

  /** The bytes of the address space from 0 up, and one protection for each of its pages. */
  class Memory {
    var bytes: seq<nat>
    var prot: seq<Protect>
    var calls: nat
    /** Whether the n-th protection change is granted; what is asked of pages that do not exist never is. */
    const grants: nat -> bool
    /** Whether the n-th protection change is granted when it restores a page. */
    const restores: nat -> bool

    constructor (bytes: seq<nat>, prot: seq<Protect>, grants: nat -> bool, restores: nat -> bool)
      requires |bytes| == |prot| * PAGE_SIZE
      ensures Valid() && this.bytes == bytes && this.prot == prot
      ensures this.grants == grants && this.restores == restores
    {
      this.bytes, this.prot, this.calls, this.grants, this.restores := bytes, prot, 0, grants, restores;
    }

    ghost predicate Valid()
      reads this
    {
      |bytes| == |prot| * PAGE_SIZE
    }

    /** `protect_page_same_execute`. */
    method ProtectPage(page: nat, mode: Protect) returns (was: Option<Protect>)
      modifies this`prot, this`calls
      ensures was.Some? ==> page < |prot| == |old(prot)| && was.value == old(prot[page])
      ensures was.Some? ==> prot == old(prot)[page := AdjustExecute(old(prot[page]), mode)]
      ensures was.None? ==> prot == old(prot)
      ensures page < |old(prot)| && grants(old(calls)) ==> was.Some?
    {
      var granted := grants(calls);
      calls := calls + 1;
      if page >= |prot| || !granted {
        return None;
      }
      was := Some(prot[page]);
      prot := prot[page := AdjustExecute(prot[page], mode)];
    }

    /** `PageProtections::restore`: every page whose restoring call succeeds gets its own protection back. */
    method Restore(saved: PageProtections) returns (ok: bool)
      requires saved.first + |saved.was| <= |prot|
      modifies this`prot, this`calls
      ensures prot == Undone(old(prot), saved, restores, old(calls)) && calls == old(calls) + |saved.was|
      ensures ok <==> forall n :: old(calls) <= n < calls ==> restores(n)
    {
      ok := true;
      for i := 0 to |saved.was|
        invariant |prot| == |old(prot)| && calls == old(calls) + i
        invariant prot == Undone(old(prot), PageProtections(saved.first, saved.was[..i]), restores, old(calls))
        invariant ok <==> forall n :: old(calls) <= n < calls ==> restores(n)
      {
        var granted := restores(calls);
        UndoneMore(old(prot), saved, restores, old(calls), i);
        calls := calls + 1;
        if granted {
          prot := prot[saved.first + i := saved.was[i]];
        }
        ok := ok && granted;
      }
      assert saved.was[..|saved.was|] == saved.was;
    }

    /** `PageProtections::change`: all pages of the range, or none. */
    method Change(start: nat, len: nat, mode: Protect) returns (saved: Option<PageProtections>)
      requires len > 0 && (start + len - 1) / PAGE_SIZE - start / PAGE_SIZE < MAX_BATCH_PAGES
      modifies this`prot, this`calls
      ensures |prot| == |old(prot)|
      ensures saved.None? && (forall n :: restores(n)) ==> prot == old(prot)
      ensures saved.Some? ==>
        var first := start / PAGE_SIZE;
        var pages := (start + len - 1) / PAGE_SIZE - first + 1;
        && first + pages <= |old(prot)|
        && saved.value == PageProtections(first, old(prot)[first..first + pages])
        && prot == Opened(old(prot), first, pages, mode)
      ensures (forall n :: grants(n)) && (start + len - 1) / PAGE_SIZE < |old(prot)| ==> saved.Some?
    {
      var first := start / PAGE_SIZE;
      var pages := (start + len - 1) / PAGE_SIZE - first + 1;
      var olds: seq<Protect> := [];
      var i := 0;
      while i < Min(pages, MAX_BATCH_PAGES)
        invariant 0 <= i <= pages && |olds| == i && |prot| == |old(prot)|
        invariant i > 0 ==> first + i <= |prot|
        invariant first + i <= |prot| ==>
                  olds == old(prot)[first..first + i] && prot == Opened(old(prot), first, i, mode)
        invariant first + i > |prot| ==> i == 0 && prot == old(prot)
      {
        var page := ProtectPage(first + i, mode);
        if page.None? {
          if i > 0 {
            RestoreUndoes(old(prot), first, i, mode, restores, calls);
            var _ := Restore(PageProtections(first, olds));
          }
          return None;
        }
        OpenedMore(old(prot), first, i, mode);
        olds := olds + [page.value];
        i := i + 1;
      }
      saved := Some(PageProtections(first, olds));
    }

    /** The two copies of a batch: they need every touched page writable. */
    method Copy(chunk: nat, src: seq<nat>) returns (before: seq<nat>)
      requires Valid() && chunk + |src| <= |bytes|
      requires forall a :: chunk <= a < chunk + |src| ==> Writable(prot[a / PAGE_SIZE])
      modifies this`bytes
      ensures Valid() && before == old(bytes)[chunk..chunk + |src|]
      ensures bytes == old(bytes)[..chunk] + src + old(bytes)[chunk + |src|..]
    {
      before := bytes[chunk..chunk + |src|];
      bytes := bytes[..chunk] + src + bytes[chunk + |src|..];
    }

    /** One batch: everything it touches is written and its pages are as before, or nothing happened. */
    method WriteBatch(chunk: nat, src: seq<nat>) returns (ok: bool, before: seq<nat>)
      requires Valid() && |src| > 0 && (chunk + |src| - 1) / PAGE_SIZE - chunk / PAGE_SIZE < MAX_BATCH_PAGES
      modifies this
      ensures Valid() && |bytes| == |old(bytes)| && ((forall n :: restores(n)) ==> prot == old(prot))
      ensures !ok ==> bytes == old(bytes) && before == []
      ensures ok ==> chunk + |src| <= |bytes| && before == old(bytes)[chunk..chunk + |src|]
      ensures ok ==> bytes == old(bytes)[..chunk] + src + old(bytes)[chunk + |src|..]
      ensures (forall n :: grants(n)) && chunk + |src| <= |old(bytes)| ==> ok
    {
      var saved := Change(chunk, |src|, PAGE_READWRITE);
      if saved.None? {
        return false, [];
      }
      OpenedIsWritable(old(prot), chunk, chunk + |src|);
      before := Copy(chunk, src);
      RestoreUndoes(old(prot), saved.value.first, |saved.value.was|, PAGE_READWRITE, restores, calls);
      var _ := Restore(saved.value);
      ok := true;
    }

    /** The batch [start + done, start + next) of a write in progress; `was` is memory before the write. */
    method WriteNext(ghost was: seq<nat>, start: nat, src: seq<nat>, done: nat, next: nat, orig: seq<nat>)
      returns (ok: bool, orig': seq<nat>)
      requires Valid() && |was| == |bytes| && Written(was, start, src, done, bytes, orig)
      requires done < next <= |src|
      requires (start + next - 1) / PAGE_SIZE - (start + done) / PAGE_SIZE < MAX_BATCH_PAGES
      modifies this
      ensures Valid() && |bytes| == |was| && ((forall n :: restores(n)) ==> prot == old(prot))
      ensures Written(was, start, src, if ok then next else done, bytes, orig')
      ensures (forall n :: grants(n)) && start + next <= |was| ==> ok
    {
      ghost var prior := bytes;
      var part := src[done..next];
      var before;
      ok, before := WriteBatch(start + done, part);
      orig' := orig + before;
      if ok {
        assert start + done + |part| == start + next;
        WriteOn(was, start, src, done, next, prior, orig);
      }
    }

    /** `for_each_page_batch` around `WriteNext`; `cut` holds of the batch boundaries. */
    method WriteBatches(start: nat, src: seq<nat>, ghost cut: nat -> bool)
      returns (ok: bool, orig: seq<nat>, done: nat)
      requires Valid() && cut(start) && CutsOn(cut, start + |src|)
      modifies this
      ensures Valid() && ((forall n :: restores(n)) ==> prot == old(prot))
      ensures Written(old(bytes), start, src, done, bytes, orig)
      ensures ok ==> done == |src|
      ensures cut(start + done)
      ensures (forall n :: grants(n)) && start + |src| <= |old(bytes)| ==> ok
    {
      orig, done := [], 0;
      var end := start + |src|;
      var chunk := start;
      while chunk < end
        invariant start <= chunk <= end && done == chunk - start && cut(chunk)
        invariant Valid() && |bytes| == |old(bytes)| && ((forall n :: restores(n)) ==> prot == old(prot))
        invariant Written(old(bytes), start, src, done, bytes, orig)
      {
        var batchEnd := BatchEnd(chunk, end);
        var written;
        written, orig := WriteNext(old(bytes), start, src, done, batchEnd - start, orig);
        if !written {
          return false, orig, done;
        }
        chunk := batchEnd;
        done := chunk - start;
      }
      ok := true;
    }

    /**
     `write_pages`. On success exactly the target bytes are replaced by `src`, the old ones
     are in `orig`. On failure the same holds for the `done` bytes of the batches before the
     one that failed. Every protection is what it was, if the restoring calls succeed.
     */
    method WritePages(start: nat, src: seq<nat>) returns (ok: bool, orig: seq<nat>, done: nat)
      requires Valid()
      modifies this
      ensures Valid() && ((forall n :: restores(n)) ==> prot == old(prot))
      ensures Written(old(bytes), start, src, done, bytes, orig)
      ensures ok ==> done == |src|
      ensures start + done in Cuts(start, start + |src|)
      ensures (forall n :: grants(n)) && start + |src| <= |old(bytes)| && start + |src| < ADDRESS_LIMIT ==> ok
    {
      ghost var end := start + |src|;
      FirstIsCut(start, end);
      if start + |src| >= ADDRESS_LIMIT {
        return false, [], 0;
      }
      CutsAreCuts(start, end);
      ok, orig, done := WriteBatches(start, src, CutOf(start, end));
    }
  }

  ghost predicate CutsOn(cut: nat -> bool, end: nat) {
    forall c: nat :: c < end && cut(c) ==> cut(BatchEnd(c, end))
  }

  ghost function CutOf(start: nat, end: nat): nat -> bool
    requires start <= end
  {
    x => start <= x && x in Cuts(start, end)
  }

  lemma CutsAreCuts(start: nat, end: nat)
    requires start <= end
    ensures CutOf(start, end)(start) && CutsOn(CutOf(start, end), end)
  {
    FirstIsCut(start, end);
    forall c: nat | c < end && CutOf(start, end)(c) ensures CutOf(start, end)(BatchEnd(c, end)) {
      NextIsCut(start, end, c);
    }
  }

  /** `bytes` is `was` with the first `done` bytes of `src` written at `start`, and `orig` is what they replaced. */
  predicate Written(was: seq<nat>, start: nat, src: seq<nat>, done: nat, bytes: seq<nat>, orig: seq<nat>) {
    && done <= |src|
    && if done == 0 then bytes == was && orig == []
       else start + done <= |was| && bytes == was[..start] + src[..done] + was[start + done..]
            && orig == was[start..start + done]
  }

  /** Writing one more batch. */
  lemma WriteOn(was: seq<nat>, start: nat, src: seq<nat>, done: nat, next: nat, bytes: seq<nat>, orig: seq<nat>)
    requires Written(was, start, src, done, bytes, orig)
    requires done < next <= |src| && start + next <= |was| == |bytes|
    ensures var chunk := start + done;
            Written(was, start, src, next, bytes[..chunk] + src[done..next] + bytes[start + next..],
                    orig + bytes[chunk..start + next])
  {
    Extend(was, start, src, start + done, start + next);
  }

  lemma OpenedMore(prot: seq<Protect>, first: nat, n: nat, mode: Protect)
    requires first + n < |prot|
    ensures Opened(prot, first, n, mode)[first + n := AdjustExecute(prot[first + n], mode)]
         == Opened(prot, first, n + 1, mode)
    ensures prot[first..first + n] + [prot[first + n]] == prot[first..first + n + 1]
    ensures Opened(prot, first, n, mode)[first + n] == prot[first + n]
  {
  }

  lemma OpenedIsWritable(prot: seq<Protect>, chunk: nat, end: nat)
    requires chunk < end && (end - 1) / PAGE_SIZE < |prot|
    ensures var lifted := Opened(prot, chunk / PAGE_SIZE, (end - 1) / PAGE_SIZE - chunk / PAGE_SIZE + 1,
              PAGE_READWRITE);
            forall a :: chunk <= a < end ==> a / PAGE_SIZE < |lifted| && Writable(lifted[a / PAGE_SIZE])
  {
    forall a | chunk <= a < end ensures chunk / PAGE_SIZE <= a / PAGE_SIZE <= (end - 1) / PAGE_SIZE {
    }
  }

  /** Where every restoring call succeeds, restoring undoes the opening. */
  lemma RestoreUndoes(prot: seq<Protect>, first: nat, pages: nat, mode: Protect, restores: nat -> bool, from: nat)
    requires first + pages <= |prot|
    ensures (forall n :: restores(n)) ==>
              prot == Undone(Opened(prot, first, pages, mode), PageProtections(first, prot[first..first + pages]),
                             restores, from)
  {
  }

  lemma UndoneMore(prot: seq<Protect>, saved: PageProtections, restores: nat -> bool, from: nat, i: nat)
    requires saved.first + |saved.was| <= |prot| && i < |saved.was|
    ensures var before := Undone(prot, PageProtections(saved.first, saved.was[..i]), restores, from);
            Undone(prot, PageProtections(saved.first, saved.was[..i + 1]), restores, from)
            == if restores(from + i) then before[saved.first + i := saved.was[i]] else before
  {
  }

  /** Writing one more batch extends the written prefix. */
  lemma Extend(was: seq<nat>, start: nat, src: seq<nat>, chunk: nat, next: nat)
    requires start <= chunk <= next <= start + |src| && next <= |was|
    ensures var done := chunk - start;
            var bytes := was[..start] + src[..done] + was[chunk..];
            && bytes[..chunk] + src[done..next - start] + bytes[next..]
               == was[..start] + src[..next - start] + was[next..]
            && bytes[chunk..next] == was[chunk..next]
            && was[start..chunk] + was[chunk..next] == was[start..next]
            && was[..start] + src[..0] + was[start..] == was
  {
  }
}
