/**
 Rebuilding a module's original code from its file: raw windows of the mapped image,
 and windows with the base relocations applied.
 */
module DiskImage {
  import opened Options
  import opened LittleEndian

  const REL_BASED_DIR64 := 10
  const REL_BASED_HIGHLOW := 3
  const TWO64 := 0x1_0000_0000_0000_0000

  datatype Section = Section(va: nat, virtualSize: nat, rawOffset: nat, rawSize: nat)

  /** A relocation: RVA and type. */
  datatype Reloc = Reloc(rva: nat, kind: nat)

  datatype Image = Image(bytes: seq<byte>, sections: seq<Section>, imageBase: nat, relocs: seq<Reloc>)

  function Min(a: nat, b: nat): nat { if a < b then a else b }

  function Extent(s: Section): nat { if s.virtualSize > s.rawSize then s.virtualSize else s.rawSize }

  predicate Contains(s: Section, a: nat) { s.va <= a < s.va + Extent(s) }

  /** The first section an RVA lies in. */
  function Find(sections: seq<Section>, a: nat): (r: Option<Section>)
    ensures r.Some? ==> Contains(r.value, a) && r.value in sections
    ensures r.None? ==> forall s :: s in sections ==> !Contains(s, a)
  {
    if sections == [] then None
    else if Contains(sections[0], a) then Some(sections[0])
    else Find(sections[1..], a)
  }

  ghost predicate Disjoint(sections: seq<Section>) {
    forall s, t, a :: s in sections && t in sections && Contains(s, a) && Contains(t, a) ==> s == t
  }

  function Zeros(n: nat): (r: seq<byte>)
    ensures |r| == n
  {
    seq(n, _ => 0)
  }

  /** The bytes of section `s` from `within` on, as it is mapped: file data first, zeros after it. */
  function Mapped(bytes: seq<byte>, s: Section, within: nat, n: nat): (r: Option<seq<byte>>)
    ensures r.Some? ==> |r.value| == n
  {
    if within < s.rawSize then
      var copy := Min(n, s.rawSize - within);
      var from := s.rawOffset + within;
      if from + copy <= |bytes| then Some(bytes[from..from + copy] + Zeros(n - copy)) else None
    else Some(Zeros(n))
  }

  /** The file bytes backing [rva, rva + len), cut at the end of the section. */
  function Raw(img: Image, rva: nat, len: nat): (r: Option<seq<byte>>)
    ensures r.Some? ==> |r.value| <= len
  {
    match Find(img.sections, rva)
    case None => None
    case Some(s) => Mapped(img.bytes, s, rva - s.va, Min(len, Extent(s) - (rva - s.va)))
  }

  /** The mapped byte at one address, before relocation. */
  function RawAt(img: Image, a: nat): Option<byte> {
    match Raw(img, a, 1)
    case Some(bs) => if |bs| == 1 then Some(bs[0]) else None
    case None => None
  }

  /** A window is made of the bytes at its addresses. */
  lemma RawWindow(img: Image, rva: nat, len: nat, i: nat)
    requires Disjoint(img.sections) && Raw(img, rva, len).Some? && i < |Raw(img, rva, len).value|
    ensures RawAt(img, rva + i) == Some(Raw(img, rva, len).value[i])
  {
    var s := Find(img.sections, rva).value;
    SameSection(img.sections, s, rva + i);
    MappedAt(img.bytes, s, rva - s.va, |Raw(img, rva, len).value|, i);
    assert Raw(img, rva + i, 1) == Mapped(img.bytes, s, rva + i - s.va, 1);
  }

  lemma MappedAt(bytes: seq<byte>, s: Section, within: nat, n: nat, i: nat)
    requires Mapped(bytes, s, within, n).Some? && i < n
    ensures Mapped(bytes, s, within + i, 1) == Some([Mapped(bytes, s, within, n).value[i]])
  {
    var whole, one := Mapped(bytes, s, within, n).value, Mapped(bytes, s, within + i, 1);
    assert one.Some?;
    assert one.value[0] == whole[i];
    assert one.value == [whole[i]];
  }

  lemma SameSection(sections: seq<Section>, s: Section, a: nat)
    requires Disjoint(sections) && s in sections && Contains(s, a)
    ensures Find(sections, a) == Some(s)
  {
    var t := Find(sections, a);
    assert t.Some?;
    assert t.value in sections && Contains(t.value, a);
  }

  /** What the loader maps at an address of section `s`: the file's byte where there is one, then zeros. */
  lemma RawByte(img: Image, s: Section, a: nat)
    requires Disjoint(img.sections) && s in img.sections
    requires s.va <= a && (a < s.va + s.virtualSize || a < s.va + s.rawSize)
    ensures RawAt(img, a)
         == if a - s.va >= s.rawSize then Some(0)
            else if s.rawOffset + (a - s.va) < |img.bytes| then Some(img.bytes[s.rawOffset + (a - s.va)])
            else None
  {
    SameSection(img.sections, s, a);
  }

  /** Outside the sections nothing is mapped, and a window is cut only at the end of its section. */
  lemma RawEnds(img: Image, rva: nat, len: nat)
    ensures (forall s :: s in img.sections ==> rva < s.va || (rva >= s.va + s.virtualSize && rva >= s.va + s.rawSize))
            ==> Raw(img, rva, len).None?
    ensures Raw(img, rva, len).Some? && |Raw(img, rva, len).value| < len ==>
              exists s :: s in img.sections && s.va <= rva
                && (rva + |Raw(img, rva, len).value| == s.va + s.virtualSize
                    || rva + |Raw(img, rva, len).value| == s.va + s.rawSize)
                && rva + |Raw(img, rva, len).value| >= s.va + s.virtualSize
                && rva + |Raw(img, rva, len).value| >= s.va + s.rawSize
  {
  }

  // ------------------------------------------------------------- relocations

  function Width(kind: nat): nat { if kind == REL_BASED_DIR64 then 8 else 4 }

  /** A little-endian value moved by `delta`, wrapping at its width. */
  function Moved(bs: seq<byte>, delta: nat): (r: seq<byte>)
    ensures |r| == |bs|
  {
    Le((Unle(bs) + delta) % Pow256(|bs|), |bs|)
  }

  lemma MovedByNothing(bs: seq<byte>)
    ensures Moved(bs, 0) == bs
  {
    UnleBound(bs);
    LeOfUnle(bs);
    SmallMod(Unle(bs), Pow256(|bs|));
  }

  lemma SmallMod(x: nat, m: nat)
    requires x < m
    ensures x % m == x
  {
  }

  /** What a relocation writes: nothing when its value is not wholly inside one section. */
  function Patch(img: Image, delta: nat, r: Reloc): (p: Option<seq<byte>>)
    ensures p.Some? ==> |p.value| == Width(r.kind)
  {
    match Raw(img, r.rva, Width(r.kind))
    case None => None
    case Some(bs) => if |bs| < Width(r.kind) then None else Some(Moved(bs, delta))
  }

  predicate Touches(p: Option<seq<byte>>, r: Reloc, a: nat) {
    p.Some? && r.rva <= a < r.rva + |p.value|
  }

  /** The byte at `a` of the image mapped at its base plus `delta`, with `relocs` applied in order. */
  function Loaded(img: Image, delta: nat, relocs: seq<Reloc>, a: nat): Option<byte> {
    if relocs == [] then RawAt(img, a)
    else
      var r := relocs[|relocs| - 1];
      var p := Patch(img, delta, r);
      if Touches(p, r, a) then Some(p.value[a - r.rva]) else Loaded(img, delta, relocs[..|relocs| - 1], a)
  }

  lemma LoadedSnoc(img: Image, delta: nat, relocs: seq<Reloc>, r: Reloc, a: nat)
    ensures var p := Patch(img, delta, r);
            Loaded(img, delta, relocs + [r], a)
            == if Touches(p, r, a) then Some(p.value[a - r.rva]) else Loaded(img, delta, relocs, a)
  {
    assert (relocs + [r])[..|relocs|] == relocs;
  }

  ghost predicate Sorted(relocs: seq<Reloc>) {
    forall j, k :: 0 <= j <= k < |relocs| ==> relocs[j].rva <= relocs[k].rva
  }

  ghost predicate Beyond(relocs: seq<Reloc>, a: nat) {
    forall k :: 0 <= k < |relocs| ==> a < relocs[k].rva || relocs[k].rva + 8 <= a
  }

  /** Relocations that cannot reach an address do not matter to it. */
  lemma {:induction false} BeyondIsIdle(img: Image, delta: nat, head: seq<Reloc>, tail: seq<Reloc>, a: nat)
    requires Beyond(tail, a)
    ensures Loaded(img, delta, head + tail, a) == Loaded(img, delta, head, a)
    decreases |tail|
  {
    if tail == [] {
      assert head + tail == head;
    } else {
      var front, r := tail[..|tail| - 1], tail[|tail| - 1];
      BeyondIsIdle(img, delta, head, front, a);
      assert head + tail == (head + front) + [r];
      LoadedSnoc(img, delta, head + front, r, a);
    }
  }

  lemma PatchedIsMapped(img: Image, delta: nat, r: Reloc)
    requires Patch(img, delta, r).Some?
    ensures Raw(img, r.rva, Width(r.kind)).Some? && |Raw(img, r.rva, Width(r.kind)).value| == Width(r.kind)
    ensures Patch(img, delta, r).value == Moved(Raw(img, r.rva, Width(r.kind)).value, delta)
  {
  }

  lemma PatchOfNothing(img: Image, r: Reloc, a: nat)
    requires Disjoint(img.sections) && Touches(Patch(img, 0, r), r, a)
    ensures RawAt(img, a) == Some(Patch(img, 0, r).value[a - r.rva])
  {
    PatchedIsMapped(img, 0, r);
    MovedByNothing(Raw(img, r.rva, Width(r.kind)).value);
    RawWindow(img, r.rva, Width(r.kind), a - r.rva);
  }

  /** At the preferred base the relocations change nothing. */
  lemma {:induction false} NoDeltaNoChange(img: Image, relocs: seq<Reloc>, a: nat)
    requires Disjoint(img.sections)
    ensures Loaded(img, 0, relocs, a) == RawAt(img, a)
    decreases |relocs|
  {
    if relocs != [] {
      var front, r := relocs[..|relocs| - 1], relocs[|relocs| - 1];
      NoDeltaNoChange(img, front, a);
      if Touches(Patch(img, 0, r), r, a) {
        PatchOfNothing(img, r, a);
      }
    }
  }

  // ------------------------------------------------------- reading a window

  function Delta(img: Image, base: nat): nat { (base - img.imageBase) % TWO64 }

  lemma DeltaMoves(value: nat, base: nat, imageBase: nat, m: nat)
    requires m > 0 && TWO64 % m == 0 && imageBase <= value && value - imageBase + base < m
    ensures (value + (base - imageBase) % TWO64) % m == value - imageBase + base
  {
    var d := (base - imageBase) % TWO64;
    var k := (base - imageBase) / TWO64;
    assert base - imageBase == k * TWO64 + d;
    assert TWO64 == (TWO64 / m) * m;
    var q := TWO64 / m;
    assert k * TWO64 == (k * q) * m by { MulAssoc(k, q, m); }
    ModShift(value - imageBase + base, -(k * q), m);
  }

  lemma MulAssoc(a: int, b: int, c: int)
    ensures a * (b * c) == (a * b) * c
  {
  }

  lemma SmallMultiple(n: int, m: int)
    requires m > 0 && -m < n * m < m
    ensures n == 0
  {
    assert n >= 1 ==> n * m >= m;
    assert n <= -1 ==> n * m <= -m;
  }

  lemma ModShift(x: nat, k: int, m: nat)
    requires x < m
    ensures (x + k * m) % m == x
  {
    var y := x + k * m;
    var q, r := y / m, y % m;
    assert y == q * m + r;
    assert (q - k) * m == x - r;
    SmallMultiple(q - k, m);
  }

  /** A pointer to `offset` bytes past the preferred base is patched to point as far past the base. */
  lemma PointerIsRebased(img: Image, base: nat, r: Reloc, offset: nat)
    requires r.kind == REL_BASED_DIR64 || r.kind == REL_BASED_HIGHLOW
    requires var w := if r.kind == REL_BASED_DIR64 then 8 else 4;
             && Raw(img, r.rva, w) == Some(Le(img.imageBase + offset, w))
             && img.imageBase + offset < Pow256(w) && base + offset < Pow256(w)
    ensures var w := if r.kind == REL_BASED_DIR64 then 8 else 4;
            Patch(img, Delta(img, base), r) == Some(Le(base + offset, w))
  {
    var w := if r.kind == REL_BASED_DIR64 then 8 else 4;
    MovedPointer(img.imageBase + offset, base, img.imageBase, w);
  }

  lemma MovedPointer(value: nat, base: nat, imageBase: nat, w: nat)
    requires (w == 4 || w == 8) && imageBase <= value < Pow256(w) && value - imageBase + base < Pow256(w)
    ensures Moved(Le(value, w), (base - imageBase) % TWO64) == Le(value - imageBase + base, w)
  {
    assert Pow256(4) == 0x1_0000_0000 && Pow256(8) == TWO64;
    UnleOfLe(value, w);
    DeltaMoves(value, base, imageBase, Pow256(w));
  }

  /** `partition_point` for relocations that end at or before the window, by binary search. */
  method FirstReaching(relocs: seq<Reloc>, rva: nat) returns (first: nat)
    requires Sorted(relocs)
    ensures first <= |relocs|
    ensures forall k :: 0 <= k < first ==> relocs[k].rva + 8 <= rva
    ensures forall k :: first <= k < |relocs| ==> relocs[k].rva + 8 > rva
  {
    var hi := |relocs|;
    first := 0;
    while first < hi
      invariant first <= hi <= |relocs|
      invariant forall k :: 0 <= k < first ==> relocs[k].rva + 8 <= rva
      invariant forall k :: hi <= k < |relocs| ==> relocs[k].rva + 8 > rva
    {
      var mid := (first + hi) / 2;
      if relocs[mid].rva + 8 <= rva {
        first := mid + 1;
      } else {
        hi := mid;
      }
    }
  }

  /** Writes the part of a patched value that lies in the window. */
  method Overlay(window: seq<byte>, rva: nat, r: Reloc, patched: seq<byte>) returns (out: seq<byte>)
    ensures |out| == |window|
    ensures forall i :: 0 <= i < |out| ==>
              out[i] == if r.rva <= rva + i < r.rva + |patched| then patched[rva + i - r.rva] else window[i]
  {
    out := window;
    for i := 0 to |patched|
      invariant |out| == |window|
      invariant forall k :: 0 <= k < |out| ==>
                  out[k] == if r.rva <= rva + k < r.rva + i then patched[rva + k - r.rva] else window[k]
    {
      var at := r.rva + i;
      if rva <= at < rva + |out| {
        out := out[at - rva := patched[i]];
      }
    }
  }

  ghost predicate WindowIs(img: Image, delta: nat, relocs: seq<Reloc>, rva: nat, out: seq<byte>) {
    forall i :: 0 <= i < |out| ==> Loaded(img, delta, relocs, rva + i) == Some(out[i])
  }

  lemma RawWindowIs(img: Image, delta: nat, head: seq<Reloc>, rva: nat, len: nat)
    requires Disjoint(img.sections) && Raw(img, rva, len).Some?
    requires forall k :: 0 <= k < |head| ==> head[k].rva + 8 <= rva
    ensures WindowIs(img, delta, head, rva, Raw(img, rva, len).value)
  {
    var out := Raw(img, rva, len).value;
    forall i | 0 <= i < |out| ensures Loaded(img, delta, head, rva + i) == Some(out[i]) {
      RawWindow(img, rva, len, i);
      assert [] + head == head;
      BeyondIsIdle(img, delta, [], head, rva + i);
    }
  }

  lemma OverlaidWindowIs(img: Image, delta: nat, relocs: seq<Reloc>, r: Reloc, rva: nat, window: seq<byte>,
                         out: seq<byte>)
    requires WindowIs(img, delta, relocs, rva, window) && |out| == |window|
    requires var p := Patch(img, delta, r);
             forall i :: 0 <= i < |out| ==>
               out[i] == if Touches(p, r, rva + i) then p.value[rva + i - r.rva] else window[i]
    ensures WindowIs(img, delta, relocs + [r], rva, out)
  {
    forall i | 0 <= i < |out| ensures Loaded(img, delta, relocs + [r], rva + i) == Some(out[i]) {
      LoadedSnoc(img, delta, relocs, r, rva + i);
      assert Loaded(img, delta, relocs, rva + i) == Some(window[i]);
    }
  }

  lemma RestIsIdle(img: Image, delta: nat, k: nat, rva: nat, out: seq<byte>)
    requires Sorted(img.relocs) && k <= |img.relocs| && WindowIs(img, delta, img.relocs[..k], rva, out)
    requires k < |img.relocs| ==> img.relocs[k].rva >= rva + |out|
    ensures WindowIs(img, delta, img.relocs, rva, out)
  {
    var head, tail := img.relocs[..k], img.relocs[k..];
    assert head + tail == img.relocs;
    forall i | 0 <= i < |out| ensures Loaded(img, delta, img.relocs, rva + i) == Some(out[i]) {
      BeyondIsIdle(img, delta, head, tail, rva + i);
    }
  }

  /** One pass of the relocation loop. */
  method ApplyOne(img: Image, delta: nat, ghost done: seq<Reloc>, r: Reloc, rva: nat, window: seq<byte>)
    returns (out: seq<byte>)
    requires WindowIs(img, delta, done, rva, window)
    ensures |out| == |window| && WindowIs(img, delta, done + [r], rva, out)
  {
    out := window;
    var original := Raw(img, r.rva, Width(r.kind));
    if original.Some? && |original.value| >= Width(r.kind) {
      out := Overlay(window, rva, r, Moved(original.value, delta));
    }
    OverlaidWindowIs(img, delta, done, r, rva, window, out);
  }

  lemma UnmovedWindowIs(img: Image, rva: nat, len: nat)
    requires Disjoint(img.sections) && Raw(img, rva, len).Some?
    ensures WindowIs(img, 0, img.relocs, rva, Raw(img, rva, len).value)
  {
    var out := Raw(img, rva, len).value;
    forall i | 0 <= i < |out| ensures Loaded(img, 0, img.relocs, rva + i) == Some(out[i]) {
      RawWindow(img, rva, len, i);
      NoDeltaNoChange(img, img.relocs, rva + i);
    }
  }

  /** The relocation loop: from the first relocation that can reach the window to the first that starts past it. */
  method Relocate(img: Image, delta: nat, first: nat, rva: nat, window: seq<byte>) returns (out: seq<byte>)
    requires Sorted(img.relocs) && first <= |img.relocs| && WindowIs(img, delta, img.relocs[..first], rva, window)
    ensures |out| == |window| && WindowIs(img, delta, img.relocs, rva, out)
  {
    out := window;
    var k := first;
    while k < |img.relocs| && img.relocs[k].rva < rva + |window|
      invariant first <= k <= |img.relocs| && |out| == |window|
      invariant WindowIs(img, delta, img.relocs[..k], rva, out)
    {
      out := ApplyOne(img, delta, img.relocs[..k], img.relocs[k], rva, out);
      assert img.relocs[..k + 1] == img.relocs[..k] + [img.relocs[k]];
      k := k + 1;
    }
    RestIsIdle(img, delta, k, rva, out);
  }

  /**
   `DiskImage::read`: the window is the same slice of the image with all relocations
   applied in order, however it is placed, so any two windows agree where they overlap.
   */
  method Read(img: Image, rva: nat, len: nat, base: nat) returns (r: Option<seq<byte>>)
    requires Disjoint(img.sections) && Sorted(img.relocs)
    ensures r.Some? <==> Raw(img, rva, len).Some?
    ensures r.Some? ==> |r.value| == |Raw(img, rva, len).value|
    ensures r.Some? ==> WindowIs(img, Delta(img, base), img.relocs, rva, r.value)
  {
    var raw := Raw(img, rva, len);
    if raw.None? {
      return None;
    }
    var delta := Delta(img, base);
    if delta == 0 {
      UnmovedWindowIs(img, rva, len);
      return raw;
    }
    var first := FirstReaching(img.relocs, rva);
    RawWindowIs(img, delta, img.relocs[..first], rva, len);
    var out := Relocate(img, delta, first, rva, raw.value);
    r := Some(out);
  }

  // ------------------------------------------------- the loader's own account

  function Known(b: Option<byte>): byte { if b.Some? then b.value else 0 }

  /** A loader that reads each value from the memory it has already relocated. */
  function LoaderByte(img: Image, delta: nat, relocs: seq<Reloc>, a: nat): Option<byte>
    decreases |relocs|, 0
  {
    if relocs == [] then RawAt(img, a)
    else
      var front, r := relocs[..|relocs| - 1], relocs[|relocs| - 1];
      if Patch(img, delta, r).Some? && r.rva <= a < r.rva + Width(r.kind) then
        Some(Moved(LoaderBytes(img, delta, front, r.rva, Width(r.kind)), delta)[a - r.rva])
      else LoaderByte(img, delta, front, a)
  }

  function LoaderBytes(img: Image, delta: nat, relocs: seq<Reloc>, a: nat, n: nat): (bs: seq<byte>)
    ensures |bs| == n
    decreases |relocs|, n + 1
  {
    if n == 0 then []
    else LoaderBytes(img, delta, relocs, a, n - 1) + [Known(LoaderByte(img, delta, relocs, a + n - 1))]
  }

  lemma {:induction false} LoaderBytesAt(img: Image, delta: nat, relocs: seq<Reloc>, a: nat, n: nat, i: nat)
    requires i < n
    ensures LoaderBytes(img, delta, relocs, a, n)[i] == Known(LoaderByte(img, delta, relocs, a + i))
    decreases n
  {
    if i < n - 1 {
      LoaderBytesAt(img, delta, relocs, a, n - 1, i);
    }
  }

  ghost predicate Clear(r: Reloc, q: Reloc) {
    r.rva + Width(r.kind) <= q.rva || q.rva + Width(q.kind) <= r.rva
  }

  /** No two relocated values overlap. */
  ghost predicate Apart(relocs: seq<Reloc>) {
    forall j, k :: 0 <= j < k < |relocs| ==> Clear(relocs[j], relocs[k])
  }

  ghost predicate ClearAt(relocs: seq<Reloc>, a: nat) {
    forall k :: 0 <= k < |relocs| ==> a < relocs[k].rva || relocs[k].rva + Width(relocs[k].kind) <= a
  }

  /** An address no relocation writes holds the raw byte. */
  lemma {:induction false} UntouchedIsRaw(img: Image, delta: nat, relocs: seq<Reloc>, a: nat)
    requires ClearAt(relocs, a)
    ensures Loaded(img, delta, relocs, a) == RawAt(img, a)
    decreases |relocs|
  {
    if relocs != [] {
      UntouchedIsRaw(img, delta, relocs[..|relocs| - 1], a);
    }
  }

  lemma ClearOfLast(relocs: seq<Reloc>, i: nat)
    requires Apart(relocs) && relocs != [] && i < Width(relocs[|relocs| - 1].kind)
    ensures ClearAt(relocs[..|relocs| - 1], relocs[|relocs| - 1].rva + i)
  {
    var front, r := relocs[..|relocs| - 1], relocs[|relocs| - 1];
    forall k | 0 <= k < |front| ensures Clear(front[k], r) {
      assert Clear(relocs[k], relocs[|relocs| - 1]);
    }
  }

  /** What lies under a relocation is still raw when its turn comes. */
  lemma RawUnderLast(img: Image, delta: nat, front: seq<Reloc>, rva: nat, w: nat, i: nat)
    requires Disjoint(img.sections) && ClearAt(front, rva + i)
    requires Raw(img, rva, w).Some? && i < |Raw(img, rva, w).value|
    ensures Loaded(img, delta, front, rva + i) == Some(Raw(img, rva, w).value[i])
  {
    UntouchedIsRaw(img, delta, front, rva + i);
    RawWindow(img, rva, w, i);
  }

  /** When values do not overlap, patching from the file and relocating memory in place give the same image. */
  lemma {:induction false} LoaderAgrees(img: Image, delta: nat, relocs: seq<Reloc>, a: nat)
    requires Disjoint(img.sections) && Apart(relocs)
    ensures LoaderByte(img, delta, relocs, a) == Loaded(img, delta, relocs, a)
    decreases |relocs|
  {
    if relocs != [] {
      var front, r := relocs[..|relocs| - 1], relocs[|relocs| - 1];
      var w := Width(r.kind);
      if Patch(img, delta, r).Some? && r.rva <= a < r.rva + w {
        PatchedIsMapped(img, delta, r);
        var raw, now := Raw(img, r.rva, w).value, LoaderBytes(img, delta, front, r.rva, w);
        forall i | 0 <= i < w ensures now[i] == raw[i] {
          LoaderAgrees(img, delta, front, r.rva + i);
          ClearOfLast(relocs, i);
          RawUnderLast(img, delta, front, r.rva, w, i);
          LoaderBytesAt(img, delta, front, r.rva, w, i);
        }
        assert now == raw;
      } else {
        LoaderAgrees(img, delta, front, a);
      }
    }
  }

  lemma {:induction false} LoadedAt(img: Image, delta: nat, relocs: seq<Reloc>, k: nat, i: nat)
    requires Apart(relocs) && k < |relocs| && i < Width(relocs[k].kind) && Patch(img, delta, relocs[k]).Some?
    ensures Loaded(img, delta, relocs, relocs[k].rva + i) == Some(Patch(img, delta, relocs[k]).value[i])
    decreases |relocs|
  {
    var front, r := relocs[..|relocs| - 1], relocs[|relocs| - 1];
    if k < |front| {
      assert Clear(relocs[k], relocs[|relocs| - 1]);
      assert !Touches(Patch(img, delta, r), r, relocs[k].rva + i);
      LoadedAt(img, delta, front, k, i);
    }
  }

  /** So a pointer in the image reads as the loader would leave it, at any base. */
  lemma PointerFollowsBase(img: Image, base: nat, k: nat, offset: nat, i: nat)
    requires Apart(img.relocs) && k < |img.relocs|
    requires img.relocs[k].kind == REL_BASED_DIR64 || img.relocs[k].kind == REL_BASED_HIGHLOW
    requires var w := if img.relocs[k].kind == REL_BASED_DIR64 then 8 else 4;
             && Raw(img, img.relocs[k].rva, w) == Some(Le(img.imageBase + offset, w)) && i < w
             && img.imageBase + offset < Pow256(w) && base + offset < Pow256(w)
    ensures var w := if img.relocs[k].kind == REL_BASED_DIR64 then 8 else 4;
            Loaded(img, Delta(img, base), img.relocs, img.relocs[k].rva + i) == Some(Le(base + offset, w)[i])
  {
    PointerIsRebased(img, base, img.relocs[k], offset);
    LoadedAt(img, Delta(img, base), img.relocs, k, i);
  }

  // ------------------------------------------------------ the relocation table

  function Word(low: nat, high: nat): nat { low + 256 * high }

  function Entry(page: nat, e: nat): seq<Reloc> {
    var kind := e / 4096;
    if kind == REL_BASED_HIGHLOW || kind == REL_BASED_DIR64 then [Reloc(page + e % 4096, kind)] else []
  }

  /** The relocations in the 16-bit entries of one block. */
  function Entries(page: nat, bs: seq<byte>): seq<Reloc> {
    if |bs| < 2 then [] else Entry(page, Word(bs[0], bs[1])) + Entries(page, bs[2..])
  }

  /** The relocations of the blocks from `bs` on, up to the first malformed one. */
  function Blocks(bs: seq<byte>): seq<Reloc>
    decreases |bs|
  {
    if |bs| < 8 then []
    else
      var size := Unle(bs[4..8]);
      if size < 8 || size > |bs| then [] else Entries(Unle(bs[0..4]), bs[8..size]) + Blocks(bs[size..])
  }

  method ParseBlock(page: nat, bs: seq<byte>) returns (relocs: seq<Reloc>)
    ensures relocs == Entries(page, bs)
  {
    relocs := [];
    var i := 0;
    while i + 2 <= |bs|
      invariant 0 <= i <= |bs|
      invariant relocs + Entries(page, bs[i..]) == Entries(page, bs)
    {
      var e := Word(bs[i], bs[i + 1]);
      relocs := relocs + Entry(page, e);
      assert bs[i..][2..] == bs[i + 2..];
      i := i + 2;
    }
  }

  /** One block, and where the next one starts. */
  method ParseNext(blocks: seq<byte>, at: nat) returns (ok: bool, relocs: seq<Reloc>, next: nat)
    requires at + 8 <= |blocks|
    ensures ok ==> at < next <= |blocks| && Blocks(blocks[at..]) == relocs + Blocks(blocks[next..])
    ensures !ok ==> next == at && relocs == [] == Blocks(blocks[at..])
  {
    var page := Unle(blocks[at..at + 4]);
    var size := Unle(blocks[at + 4..at + 8]);
    BlocksStep(blocks, at);
    if size < 8 || at + size > |blocks| {
      return false, [], at;
    }
    relocs := ParseBlock(page, blocks[at + 8..at + size]);
    ok, next := true, at + size;
  }

  /** The relocation part of `DiskImage::parse`, before sorting. */
  method ParseRelocations(blocks: seq<byte>) returns (relocs: seq<Reloc>)
    ensures relocs == Blocks(blocks)
  {
    relocs := [];
    var at, ok := 0, true;
    assert blocks[0..] == blocks;
    while ok && at + 8 <= |blocks|
      invariant at <= |blocks|
      invariant relocs + (if ok then Blocks(blocks[at..]) else []) == Blocks(blocks)
      decreases ok, |blocks| - at
    {
      var more, part, next := ParseNext(blocks, at);
      Regroup(relocs, part, if more then Blocks(blocks[next..]) else []);
      relocs, ok, at := relocs + part, more, next;
    }
  }

  lemma Regroup<T>(a: seq<T>, b: seq<T>, c: seq<T>)
    ensures a + (b + c) == (a + b) + c
  {
  }

  lemma BlocksStep(blocks: seq<byte>, at: nat)
    requires at + 8 <= |blocks|
    ensures var size := Unle(blocks[at + 4..at + 8]);
            Blocks(blocks[at..])
            == if size < 8 || at + size > |blocks| then []
               else Entries(Unle(blocks[at..at + 4]), blocks[at + 8..at + size]) + Blocks(blocks[at + size..])
  {
    var rest, size := blocks[at..], Unle(blocks[at + 4..at + 8]);
    assert rest[0..4] == blocks[at..at + 4] && rest[4..8] == blocks[at + 4..at + 8];
    if 8 <= size && at + size <= |blocks| {
      assert rest[8..size] == blocks[at + 8..at + size] && rest[size..] == blocks[at + size..];
    }
  }

  /** A page's relocations: offsets below 4096, as a linker writes them. */
  datatype Block = Block(page: nat, items: seq<Reloc>)

  predicate WellFormed(b: Block) {
    && b.page < Pow256(4) && 8 + 2 * |b.items| < Pow256(4)
    && forall k :: 0 <= k < |b.items| ==> b.items[k].kind < 16 && b.page <= b.items[k].rva < b.page + 4096
  }

  function EntryBytes(page: nat, r: Reloc): (bs: seq<byte>)
    requires page <= r.rva < page + 4096 && r.kind < 16
    ensures |bs| == 2
  {
    var e := r.kind * 4096 + (r.rva - page);
    [e % 256, e / 256]
  }

  function ItemBytes(page: nat, items: seq<Reloc>): (bs: seq<byte>)
    requires forall k :: 0 <= k < |items| ==> page <= items[k].rva < page + 4096 && items[k].kind < 16
    ensures |bs| == 2 * |items|
  {
    if items == [] then [] else EntryBytes(page, items[0]) + ItemBytes(page, items[1..])
  }

  function BlockBytes(b: Block): seq<byte>
    requires WellFormed(b)
  {
    Le(b.page, 4) + Le(8 + 2 * |b.items|, 4) + ItemBytes(b.page, b.items)
  }

  function TableBytes(table: seq<Block>): seq<byte>
    requires forall k :: 0 <= k < |table| ==> WellFormed(table[k])
  {
    if table == [] then [] else BlockBytes(table[0]) + TableBytes(table[1..])
  }

  /** The entries that are relocations; the others are padding or of another machine. */
  function Applied(items: seq<Reloc>): seq<Reloc> {
    if items == [] then []
    else (if items[0].kind == REL_BASED_HIGHLOW || items[0].kind == REL_BASED_DIR64 then [items[0]] else [])
         + Applied(items[1..])
  }

  function Listed(table: seq<Block>): seq<Reloc> {
    if table == [] then [] else Applied(table[0].items) + Listed(table[1..])
  }

  /** Too short for a block, or the size its header gives is not one. */
  predicate Malformed(bs: seq<byte>) {
    |bs| < 8 || Unle(bs[4..8]) < 8 || Unle(bs[4..8]) > |bs|
  }

  lemma EntryReadsBack(page: nat, r: Reloc)
    requires page <= r.rva < page + 4096 && r.kind < 16
    ensures var bs := EntryBytes(page, r); Entry(page, Word(bs[0], bs[1])) == Applied([r])
  {
    var e := r.kind * 4096 + (r.rva - page);
    assert e / 4096 == r.kind && e % 4096 == r.rva - page;
  }

  lemma {:induction false} ItemsReadBack(page: nat, items: seq<Reloc>)
    requires forall k :: 0 <= k < |items| ==> items[k].kind < 16 && page <= items[k].rva < page + 4096
    ensures Entries(page, ItemBytes(page, items)) == Applied(items)
    decreases |items|
  {
    if items != [] {
      var bs := ItemBytes(page, items);
      EntryReadsBack(page, items[0]);
      ItemsReadBack(page, items[1..]);
      assert bs[0] == EntryBytes(page, items[0])[0] && bs[1] == EntryBytes(page, items[0])[1];
      assert bs[2..] == ItemBytes(page, items[1..]);
      assert Applied(items) == Applied([items[0]]) + Applied(items[1..]);
    }
  }

  lemma BlockReadsBack(b: Block, rest: seq<byte>)
    requires WellFormed(b)
    ensures Blocks(BlockBytes(b) + rest) == Applied(b.items) + Blocks(rest)
  {
    var size := 8 + 2 * |b.items|;
    var head, mid, tail := Le(b.page, 4), Le(size, 4), ItemBytes(b.page, b.items);
    var bs := head + mid + tail + rest;
    assert BlockBytes(b) + rest == bs;
    assert bs[0..4] == head && bs[4..8] == mid && bs[8..size] == tail && bs[size..] == rest;
    UnleOfLe(b.page, 4);
    UnleOfLe(size, 4);
    ItemsReadBack(b.page, b.items);
  }

  /** Every table a linker writes is read back whole and in order, up to the first malformed block. */
  lemma {:induction false} TableReadsBack(table: seq<Block>, rest: seq<byte>)
    requires (forall k :: 0 <= k < |table| ==> WellFormed(table[k])) && Malformed(rest)
    ensures Blocks(TableBytes(table) + rest) == Listed(table)
    decreases |table|
  {
    if table == [] {
      assert TableBytes(table) + rest == rest;
    } else {
      TableReadsBack(table[1..], rest);
      BlockReadsBack(table[0], TableBytes(table[1..]) + rest);
      assert TableBytes(table) + rest == BlockBytes(table[0]) + (TableBytes(table[1..]) + rest);
    }
  }
}
