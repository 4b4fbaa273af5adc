/**
 Two walks over a module's import descriptors: the list of imports, and the list of
 the slots they are bound in. They are used side by side and must stay in step.
 */
module Imports {
  import opened Options
  import opened LittleEndian

  /** A mapped module: base address, bytes, and which byte strings are UTF-8. */
  datatype Image = Image(base: nat, mem: seq<byte>, utf8: seq<byte> -> bool)

  const WORD_SIZE := 8
  const DESCRIPTOR_SIZE := 20
  const ORDINAL_FLAG := 0x8000_0000_0000_0000

  /** `rva_to_ptr`: whether a value of `n` bytes at `rva` may be read. */
  predicate Inside(img: Image, rva: nat, n: nat) { rva != 0 && rva + n <= |img.mem| }

  /** The little-endian value of `n` bytes. */
  function ValueAt(img: Image, rva: nat, n: nat): nat
    requires rva + n <= |img.mem|
  {
    Unle(img.mem[rva..rva + n])
  }

  function ReadWord(img: Image, rva: nat): Option<nat> {
    if Inside(img, rva, WORD_SIZE) then Some(ValueAt(img, rva, WORD_SIZE)) else None
  }

  /** The bytes up to the terminator, or `None` if the image ends before one. */
  function CStringFrom(img: Image, rva: nat): Option<seq<byte>>
    decreases |img.mem| - rva
  {
    if rva >= |img.mem| then None
    else if img.mem[rva] == 0 then Some([])
    else match CStringFrom(img, rva + 1) { case None => None case Some(s) => Some([img.mem[rva]] + s) }
  }

  function CString(img: Image, rva: nat): Option<seq<byte>> {
    if rva == 0 || rva >= |img.mem| then None
    else match CStringFrom(img, rva) { case None => None case Some(s) => if img.utf8(s) then Some(s) else None }
  }

  datatype Descriptor = Descriptor(originalFirstThunk: nat, name: nat, firstThunk: nat)

  function ReadDescriptor(img: Image, rva: nat): Option<Descriptor> {
    if Inside(img, rva, DESCRIPTOR_SIZE)
    then Some(Descriptor(ValueAt(img, rva, 4), ValueAt(img, rva + 12, 4), ValueAt(img, rva + 16, 4)))
    else None
  }

  /** The name table, or the address table when there is none. */
  function Lookup(d: Descriptor): nat { if d.originalFirstThunk != 0 then d.originalFirstThunk else d.firstThunk }

  // ---------------------------------------------------------- specifications

  datatype Import = Import(dll: seq<byte>, name: Option<seq<byte>>, ordinal: Option<nat>, address: nat)

  function ImportOf(img: Image, dll: seq<byte>, entry: nat, slot: nat): Import {
    var address := match ReadWord(img, slot) { case Some(a) => a case None => 0 };
    if entry / ORDINAL_FLAG % 2 == 1 then Import(dll, None, Some(entry % 0x1_0000), address)
    else Import(dll, CString(img, entry + 2), None, address)
  }

  /** The non-zero entries of the lookup table at `lookup`, up to the first zero or the end of the image. */
  function Entries(img: Image, lookup: nat): (es: seq<nat>)
    decreases |img.mem| - lookup
  {
    match ReadWord(img, lookup)
    case None => []
    case Some(v) => if v == 0 then [] else [v] + Entries(img, lookup + WORD_SIZE)
  }

  /** The descriptors of the array at `rva`, and whether it ends before one whose DLL name cannot be read. */
  function Descriptors(img: Image, rva: nat): (ds: (seq<Descriptor>, bool))
    decreases |img.mem| - rva
  {
    match ReadDescriptor(img, rva)
    case None => ([], true)
    case Some(d) =>
      if d.name == 0 then ([], true)
      else if CString(img, d.name).None? then ([], false)
      else var rest := Descriptors(img, rva + DESCRIPTOR_SIZE); ([d] + rest.0, rest.1)
  }

  function EntriesOf(img: Image, d: Descriptor): seq<nat> { if Lookup(d) != 0 then Entries(img, Lookup(d)) else [] }

  /** Entry `i` is bound in the `i`-th slot of the address table at `iat`. */
  function Bound(make: (nat, nat) -> Import, iat: nat, es: seq<nat>): (r: seq<Import>)
    ensures |r| == |es|
  {
    if es == [] then []
    else
      var k := |es| - 1;
      Bound(make, iat, es[..k]) + [make(es[k], iat + WORD_SIZE * k)]
  }

  function ImportBy(img: Image, dll: seq<byte>): (nat, nat) -> Import {
    (entry: nat, slot: nat) => ImportOf(img, dll, entry, slot)
  }

  function SlotAddresses(img: Image, iat: nat, n: nat): (r: seq<nat>)
    ensures |r| == n
  {
    if n == 0 then [] else SlotAddresses(img, iat, n - 1) + [img.base + iat + WORD_SIZE * (n - 1)]
  }

  function DllName(img: Image, d: Descriptor): seq<byte> {
    match CString(img, d.name) { case Some(s) => s case None => [] }
  }

  /** What is imported through one descriptor. */
  function ImportsOf(img: Image, d: Descriptor): seq<Import> {
    Bound(ImportBy(img, DllName(img, d)), d.firstThunk, EntriesOf(img, d))
  }

  function SlotsOf(img: Image, d: Descriptor): seq<nat> {
    SlotAddresses(img, d.firstThunk, |EntriesOf(img, d)|)
  }

  function Flat<T>(f: Descriptor -> seq<T>, ds: seq<Descriptor>): seq<T> {
    if ds == [] then [] else Flat(f, ds[..|ds| - 1]) + f(ds[|ds| - 1])
  }

  function ImportsBy(img: Image): Descriptor -> seq<Import> { d => ImportsOf(img, d) }
  function SlotsBy(img: Image): Descriptor -> seq<nat> { d => SlotsOf(img, d) }

  function AllImports(img: Image, ds: seq<Descriptor>): seq<Import> { Flat(ImportsBy(img), ds) }
  function AllSlots(img: Image, ds: seq<Descriptor>): seq<nat> { Flat(SlotsBy(img), ds) }

  // --------------------------------------------------------------- the walks

  /** The entry at `offset`, if the walk goes on. */
  function EntryAt(img: Image, rva: nat): (e: Option<nat>) {
    match ReadWord(img, rva)
    case None => None
    case Some(v) => if v == 0 then None else Some(v)
  }

  /** What the walk finds at its `k`-th step. */
  lemma {:induction false} EntryIs(img: Image, lookup: nat, k: nat)
    requires k <= |Entries(img, lookup)|
    ensures var es, e := Entries(img, lookup), EntryAt(img, lookup + WORD_SIZE * k);
            e == if k < |es| then Some(es[k]) else None
    decreases k
  {
    if k > 0 {
      EntryIs(img, lookup + WORD_SIZE, k - 1);
    }
  }

  lemma BoundSnoc(make: (nat, nat) -> Import, iat: nat, es: seq<nat>, e: nat)
    ensures Bound(make, iat, es + [e]) == Bound(make, iat, es) + [make(e, iat + WORD_SIZE * |es|)]
  {
    assert (es + [e])[..|es|] == es;
  }

  method BoundFrom(img: Image, make: (nat, nat) -> Import, iat: nat, lookup: nat) returns (imports: seq<Import>)
    ensures imports == Bound(make, iat, Entries(img, lookup))
  {
    imports := [];
    var offset := 0;
    ghost var es, k := Entries(img, lookup), 0;
    EntryIs(img, lookup, 0);
    while EntryAt(img, lookup + offset).Some?
      invariant 0 <= k <= |es| && offset == WORD_SIZE * k
      invariant EntryAt(img, lookup + offset) == if k < |es| then Some(es[k]) else None
      invariant imports == Bound(make, iat, es[..k])
      decreases |es| - k
    {
      var entry := EntryAt(img, lookup + offset).value;
      BoundSnoc(make, iat, es[..k], entry);
      assert es[..k + 1] == es[..k] + [entry];
      imports := imports + [make(entry, iat + offset)];
      offset := offset + WORD_SIZE;
      k := k + 1;
      EntryIs(img, lookup, k);
    }
    assert es[..k] == es;
  }

  method SlotsFrom(img: Image, iat: nat, lookup: nat) returns (slots: seq<nat>)
    ensures slots == SlotAddresses(img, iat, |Entries(img, lookup)|)
  {
    slots := [];
    var offset := 0;
    ghost var es, k := Entries(img, lookup), 0;
    EntryIs(img, lookup, 0);
    while EntryAt(img, lookup + offset).Some?
      invariant 0 <= k <= |es| && offset == WORD_SIZE * k
      invariant EntryAt(img, lookup + offset) == if k < |es| then Some(es[k]) else None
      invariant slots == SlotAddresses(img, iat, k)
      decreases |es| - k
    {
      slots := slots + [img.base + iat + offset];
      offset := offset + WORD_SIZE;
      k := k + 1;
      EntryIs(img, lookup, k);
    }
  }

  ghost predicate ListsImports(img: Image, listed: Descriptor -> seq<Import>) {
    forall d {:trigger ImportsOf(img, d)} :: listed(d) == ImportsOf(img, d)
  }

  ghost predicate ListsSlots(img: Image, listed: Descriptor -> seq<nat>) {
    forall d {:trigger SlotsOf(img, d)} :: listed(d) == SlotsOf(img, d)
  }

  method ImportsThrough(img: Image, d: Descriptor, ghost listed: Descriptor -> seq<Import>)
    returns (imports: seq<Import>)
    requires ListsImports(img, listed)
    ensures imports == listed(d)
  {
    imports := [];
    if Lookup(d) != 0 {
      imports := BoundFrom(img, ImportBy(img, DllName(img, d)), d.firstThunk, Lookup(d));
    }
    assert imports == ImportsOf(img, d);
  }

  method SlotsThrough(img: Image, d: Descriptor, ghost listed: Descriptor -> seq<nat>) returns (slots: seq<nat>)
    requires ListsSlots(img, listed)
    ensures slots == listed(d)
  {
    slots := [];
    if Lookup(d) != 0 {
      slots := SlotsFrom(img, d.firstThunk, Lookup(d));
    }
    assert slots == SlotsOf(img, d);
  }

  /** The descriptor at `rva`, unless the walk ends there, quietly or not. */
  function Listable(img: Image, rva: nat): Option<Descriptor> {
    match ReadDescriptor(img, rva)
    case None => None
    case Some(d) => if d.name == 0 || CString(img, d.name).None? then None else Some(d)
  }

  /** Whether the array ends at `rva` by its terminator or the end of the image. */
  predicate EndsAt(img: Image, rva: nat) {
    ReadDescriptor(img, rva).None? || ReadDescriptor(img, rva).value.name == 0
  }

  lemma DescriptorFirst(img: Image, rva: nat)
    ensures var (ds, complete) := Descriptors(img, rva);
            && Listable(img, rva) == (if ds == [] then None else Some(ds[0]))
            && (ds == [] ==> complete == EndsAt(img, rva))
            && (ds != [] ==> Descriptors(img, rva + DESCRIPTOR_SIZE) == (ds[1..], complete))
  {
  }

  /** The `k`-th step of the walk from `rva` finds the `k`-th of `ds`, or the reason to stop. */
  predicate StepFinds(img: Image, rva: nat, k: nat, ds: (seq<Descriptor>, bool)) {
    && Listable(img, rva + DESCRIPTOR_SIZE * k) == (if k < |ds.0| then Some(ds.0[k]) else None)
    && (k == |ds.0| ==> ds.1 == EndsAt(img, rva + DESCRIPTOR_SIZE * k))
  }

  lemma StepShifts(img: Image, rva: nat, k: nat, ds: (seq<Descriptor>, bool))
    requires k > 0 && ds.0 != [] && StepFinds(img, rva + DESCRIPTOR_SIZE, k - 1, (ds.0[1..], ds.1))
    ensures StepFinds(img, rva, k, ds)
  {
    assert rva + DESCRIPTOR_SIZE + DESCRIPTOR_SIZE * (k - 1) == rva + DESCRIPTOR_SIZE * k;
  }

  /** What the walk finds at its `k`-th step. */
  lemma {:induction false} DescriptorIs(img: Image, rva: nat, k: nat)
    requires k <= |Descriptors(img, rva).0|
    ensures StepFinds(img, rva, k, Descriptors(img, rva))
    decreases k
  {
    DescriptorFirst(img, rva);
    if k > 0 {
      DescriptorIs(img, rva + DESCRIPTOR_SIZE, k - 1);
      StepShifts(img, rva, k, Descriptors(img, rva));
    }
  }

  /** The `k`-th descriptor of the array at `start`, if the walk gets there. */
  method ReadNext(img: Image, ghost start: nat, rva: nat, ghost ds: seq<Descriptor>, ghost k: nat)
    returns (next: Option<Descriptor>)
    requires ds == Descriptors(img, start).0 && k <= |ds| && rva == start + DESCRIPTOR_SIZE * k
    ensures next == if k < |ds| then Some(ds[k]) else None
  {
    DescriptorIs(img, start, k);
    next := Listable(img, rva);
  }

  /** `enumerate_imports`: stops quietly at a descriptor whose DLL name cannot be read. */
  method EnumerateImports(img: Image, directory: Option<nat>) returns (imports: seq<Import>)
    ensures directory.None? ==> imports == []
    ensures directory.Some? ==> imports == AllImports(img, Descriptors(img, directory.value).0)
  {
    imports := [];
    if directory.Some? {
      imports := ImportsOfDirectory(img, directory.value, Descriptors(img, directory.value).0, ImportsBy(img));
    }
  }

  method ImportsOfDirectory(img: Image, start: nat, ghost ds: seq<Descriptor>, ghost listed: Descriptor -> seq<Import>)
    returns (imports: seq<Import>)
    requires ds == Descriptors(img, start).0
    requires ListsImports(img, listed)
    ensures imports == Flat(listed, ds)
  {
    imports := [];
    var rva := start;
    ghost var k := 0;
    var next := ReadNext(img, start, rva, ds, 0);
    while next.Some?
      invariant 0 <= k <= |ds| && rva == start + DESCRIPTOR_SIZE * k
      invariant next == if k < |ds| then Some(ds[k]) else None
      invariant imports == Flat(listed, ds[..k])
      decreases |ds| - k
    {
      var part := ImportsThrough(img, next.value, listed);
      imports := imports + part;
      FlatSnoc(listed, ds[..k], next.value);
      assert ds[..k + 1] == ds[..k] + [next.value];
      rva := rva + DESCRIPTOR_SIZE;
      k := k + 1;
      next := ReadNext(img, start, rva, ds, k);
    }
    assert ds[..k] == ds;
  }

  lemma FlatSnoc<T>(f: Descriptor -> seq<T>, ds: seq<Descriptor>, d: Descriptor)
    ensures Flat(f, ds + [d]) == Flat(f, ds) + f(d)
  {
    assert (ds + [d])[..|ds|] == ds;
  }

  /** `import_slots`: fails where `EnumerateImports` stops quietly, and without a directory. */
  method ImportSlots(img: Image, directory: Option<nat>) returns (r: Option<seq<nat>>)
    ensures r.Some? <==> directory.Some? && Descriptors(img, directory.value).1
    ensures r.Some? ==> r.value == AllSlots(img, Descriptors(img, directory.value).0)
  {
    if directory.None? {
      return None;
    }
    var slots, end := SlotsOfDirectory(img, directory.value, Descriptors(img, directory.value).0, SlotsBy(img));
    DescriptorIs(img, directory.value, |Descriptors(img, directory.value).0|);
    r := if EndsAt(img, end) then Some(slots) else None;
  }

  method SlotsOfDirectory(img: Image, start: nat, ghost ds: seq<Descriptor>, ghost listed: Descriptor -> seq<nat>)
    returns (slots: seq<nat>, end: nat)
    requires ds == Descriptors(img, start).0
    requires ListsSlots(img, listed)
    ensures end == start + DESCRIPTOR_SIZE * |ds| && slots == Flat(listed, ds)
  {
    slots := [];
    var rva := start;
    ghost var k := 0;
    var next := ReadNext(img, start, rva, ds, 0);
    while next.Some?
      invariant 0 <= k <= |ds| && rva == start + DESCRIPTOR_SIZE * k
      invariant next == if k < |ds| then Some(ds[k]) else None
      invariant slots == Flat(listed, ds[..k])
      decreases |ds| - k
    {
      var part := SlotsThrough(img, next.value, listed);
      slots := slots + part;
      FlatSnoc(listed, ds[..k], next.value);
      assert ds[..k + 1] == ds[..k] + [next.value];
      rva := rva + DESCRIPTOR_SIZE;
      k := k + 1;
      next := ReadNext(img, start, rva, ds, k);
    }
    assert ds[..k] == ds;
    end := rva;
  }

  // ------------------------------------------------------------- the theorem

  /** The address an import is bound to is what its slot holds; 0 where the slot cannot be read. */
  ghost predicate BoundIn(img: Image, x: Import, slot: nat) {
    && slot >= img.base
    && x.address == match ReadWord(img, slot - img.base) { case Some(a) => a case None => 0 }
  }

  ghost predicate InStep(img: Image, imports: seq<Import>, slots: seq<nat>) {
    |imports| == |slots| && forall i :: 0 <= i < |imports| ==> BoundIn(img, imports[i], slots[i])
  }

  lemma InStepMore(img: Image, a: seq<Import>, x: seq<nat>, b: seq<Import>, y: seq<nat>)
    requires InStep(img, a, x) && InStep(img, b, y)
    ensures InStep(img, a + b, x + y)
  {
  }

  lemma InStepSnoc(img: Image, a: seq<Import>, x: seq<nat>, i: Import, slot: nat)
    requires InStep(img, a, x) && BoundIn(img, i, slot)
    ensures InStep(img, a + [i], x + [slot])
  {
  }

  ghost predicate Makes(img: Image, make: (nat, nat) -> Import, e: nat, slot: nat) {
    BoundIn(img, make(e, slot), img.base + slot)
  }

  lemma {:induction false} BoundInStep(img: Image, make: (nat, nat) -> Import, iat: nat, es: seq<nat>)
    requires forall e: nat, slot: nat :: Makes(img, make, e, slot)
    ensures InStep(img, Bound(make, iat, es), SlotAddresses(img, iat, |es|))
    decreases |es|
  {
    if es != [] {
      var k := |es| - 1;
      BoundInStep(img, make, iat, es[..k]);
      assert Makes(img, make, es[k], iat + WORD_SIZE * k);
      InStepSnoc(img, Bound(make, iat, es[..k]), SlotAddresses(img, iat, k), make(es[k], iat + WORD_SIZE * k),
                 img.base + iat + WORD_SIZE * k);
    }
  }

  lemma DescriptorInStep(img: Image, d: Descriptor)
    ensures InStep(img, ImportsBy(img)(d), SlotsBy(img)(d))
  {
    var make := ImportBy(img, DllName(img, d));
    forall e: nat, slot: nat ensures Makes(img, make, e, slot) {
    }
    BoundInStep(img, make, d.firstThunk, EntriesOf(img, d));
  }

  lemma {:induction false} FlatInStep(img: Image, f: Descriptor -> seq<Import>, g: Descriptor -> seq<nat>,
                                      ds: seq<Descriptor>)
    requires forall d :: InStep(img, f(d), g(d))
    ensures InStep(img, Flat(f, ds), Flat(g, ds))
    decreases |ds|
  {
    if ds != [] {
      var front, d := ds[..|ds| - 1], ds[|ds| - 1];
      FlatInStep(img, f, g, front);
      InStepMore(img, Flat(f, front), Flat(g, front), f(d), g(d));
    }
  }

  /** The two lists, made from the same descriptors, are in step. */
  lemma WalksAgree(img: Image, ds: seq<Descriptor>)
    ensures InStep(img, AllImports(img, ds), AllSlots(img, ds))
  {
    forall d ensures InStep(img, ImportsBy(img)(d), SlotsBy(img)(d)) {
      DescriptorInStep(img, d);
    }
    FlatInStep(img, ImportsBy(img), SlotsBy(img), ds);
  }

  /** Whenever the slots are listed, the imports are as many, in the same order, each bound in its slot. */
  method ListBoth(img: Image, directory: Option<nat>) returns (imports: seq<Import>, slots: Option<seq<nat>>)
    ensures slots.Some? ==> InStep(img, imports, slots.value)
    ensures directory.Some? ==> imports == AllImports(img, Descriptors(img, directory.value).0)
    ensures slots == if directory.Some? && Descriptors(img, directory.value).1
                     then Some(AllSlots(img, Descriptors(img, directory.value).0)) else None
  {
    imports := EnumerateImports(img, directory);
    slots := ImportSlots(img, directory);
    if directory.Some? {
      WalksAgree(img, Descriptors(img, directory.value).0);
    }
  }
}
