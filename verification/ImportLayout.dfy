/**
 An import directory as a linker and the loader lay it out in the bytes of a module, and
 that the walks of `Imports` read it back: every import with its DLL, its name or ordinal
 and the address it is bound to, and every slot.
 */
module ImportLayout {
  import opened Options
  import opened LittleEndian
  import opened Imports

  /** An entry of a lookup table: an ordinal, or the address of a hint and a name. */
  datatype Item = ByOrdinal(ordinal: nat) | ByName(rva: nat, hint: nat, name: seq<byte>)

  /** A DLL's descriptor and what it leads to; `names` is 0 if there is only the address table. */
  datatype Dll = Dll(
    names: nat, stamp: nat, chain: nat, nameRva: nat, addressTable: nat, name: seq<byte>,
    items: seq<Item>, bound: seq<nat>)

  // --------------------------------------------------------------- the layout

  ghost predicate Holds(img: Image, rva: nat, bs: seq<byte>) {
    rva != 0 && rva + |bs| <= |img.mem| && img.mem[rva..rva + |bs|] == bs
  }

  ghost predicate HoldsString(img: Image, rva: nat, s: seq<byte>) {
    Holds(img, rva, s + [0]) && forall k :: 0 <= k < |s| ==> s[k] != 0
  }

  function EntryValue(item: Item): nat {
    match item
    case ByOrdinal(n) => 0x8000_0000_0000_0000 + n
    case ByName(rva, _, _) => rva
  }

  ghost predicate HoldsItem(img: Image, item: Item) {
    match item
    case ByOrdinal(n) => n < 0x1_0000
    case ByName(rva, hint, name) =>
      0 < rva < 0x8000_0000_0000_0000 && Holds(img, rva, Le(hint, 2)) && HoldsString(img, rva + 2, name)
  }

  function EntryTable(d: Dll): nat { if d.names != 0 then d.names else d.addressTable }

  function DescriptorBytes(d: Dll): seq<byte> {
    Le(d.names, 4) + Le(d.stamp, 4) + Le(d.chain, 4) + Le(d.nameRva, 4) + Le(d.addressTable, 4)
  }

  ghost predicate HoldsEntry(img: Image, d: Dll, i: nat)
    requires i < |d.items|
  {
    EntryValue(d.items[i]) != 0 && HoldsItem(img, d.items[i]) &&
        Holds(img, EntryTable(d) + 8 * i, Le(EntryValue(d.items[i]), 8))
  }

  ghost predicate HoldsEntries(img: Image, d: Dll) {
    && EntryTable(d) != 0 && Holds(img, EntryTable(d) + 8 * |d.items|, Le(0, 8))
    && forall i: nat :: i < |d.items| ==> HoldsEntry(img, d, i)
  }

  ghost predicate HoldsBound(img: Image, d: Dll) {
    && |d.bound| == |d.items|
    && forall i: nat :: i < |d.bound| ==>
         d.bound[i] < Pow256(8) && Holds(img, d.addressTable + 8 * i, Le(d.bound[i], 8))
  }

  ghost predicate HoldsDll(img: Image, rva: nat, d: Dll) {
    && d.names < Pow256(4) && 0 < d.nameRva < Pow256(4) && d.addressTable < Pow256(4)
    && Holds(img, rva, DescriptorBytes(d)) && HoldsString(img, d.nameRva, d.name) && img.utf8(d.name)
    && HoldsEntries(img, d) && HoldsBound(img, d)
  }

  /** What comes after the last descriptor. */
  datatype End =
    | Terminator                 // an all-zero descriptor
    | OfImage                    // the image has no room for another one
    | Broken(d: Dll)             // a descriptor whose DLL name is no UTF-8 string inside the image

  ghost predicate HoldsEnd(img: Image, rva: nat, end: End) {
    match end
    case Terminator => Holds(img, rva, seq(20, _ => 0))
    case OfImage => rva == 0 || rva + 20 > |img.mem|
    case Broken(d) =>
      && d.names < Pow256(4) && 0 < d.nameRva < Pow256(4) && d.addressTable < Pow256(4)
      && Holds(img, rva, DescriptorBytes(d)) && forall s | HoldsString(img, d.nameRva, s) :: !img.utf8(s)
  }

  /** The descriptors one after the other, and their end. */
  ghost predicate HoldsTable(img: Image, rva: nat, table: seq<Dll>, end: End)
    decreases |table|
  {
    if table == [] then HoldsEnd(img, rva, end)
    else HoldsDll(img, rva, table[0]) && HoldsTable(img, rva + 20, table[1..], end)
  }

  // ------------------------------------------------------------ what it lists

  function NamedAs(img: Image, d: Dll, i: nat): Import
    requires i < |d.items| == |d.bound|
  {
    match d.items[i]
    case ByOrdinal(n) => Import(d.name, None, Some(n), d.bound[i])
    case ByName(_, _, name) => Import(d.name, if img.utf8(name) then Some(name) else None, None, d.bound[i])
  }

  function ListedImports(img: Image, d: Dll): seq<Import>
    requires |d.items| == |d.bound|
  {
    seq(|d.items|, i requires 0 <= i < |d.items| => NamedAs(img, d, i))
  }

  function SlotOf(img: Image, d: Dll, i: nat): nat { img.base + d.addressTable + 8 * i }

  function ListedSlots(img: Image, d: Dll): seq<nat> {
    seq(|d.items|, i requires 0 <= i < |d.items| => SlotOf(img, d, i))
  }

  /** `bound` is as long as `items` in every DLL that is laid out. */
  function ImportsListed(img: Image, table: seq<Dll>): seq<Import> {
    if table == [] then []
    else (if |table[0].items| == |table[0].bound| then ListedImports(img, table[0]) else [])
         + ImportsListed(img, table[1..])
  }

  function SlotsListed(img: Image, table: seq<Dll>): seq<nat> {
    if table == [] then [] else ListedSlots(img, table[0]) + SlotsListed(img, table[1..])
  }

  // -------------------------------------------------------------------- proofs

  lemma HoldsParts(img: Image, rva: nat, a: seq<byte>, b: seq<byte>)
    requires Holds(img, rva, a + b)
    ensures Holds(img, rva, a) && Holds(img, rva + |a|, b)
  {
    assert img.mem[rva..rva + |a + b|][..|a|] == a && img.mem[rva..rva + |a + b|][|a|..] == b;
  }

  lemma ValueHeld(img: Image, rva: nat, v: nat, n: nat)
    requires Holds(img, rva, Le(v, n)) && v < Pow256(n)
    ensures Inside(img, rva, n) && ValueAt(img, rva, n) == v
  {
    UnleOfLe(v, n);
  }

  lemma {:induction false} StringHeld(img: Image, rva: nat, s: seq<byte>)
    requires HoldsString(img, rva, s)
    ensures CStringFrom(img, rva) == Some(s) && CString(img, rva) == if img.utf8(s) then Some(s) else None
    decreases |s|
  {
    assert img.mem[rva..rva + |s + [0]|][0] == (s + [0])[0];
    if s != [] {
      assert s + [0] == [s[0]] + (s[1..] + [0]);
      HoldsParts(img, rva, [s[0]], s[1..] + [0]);
      StringHeld(img, rva + 1, s[1..]);
      assert [s[0]] + s[1..] == s;
    }
  }

  lemma DescriptorHeld(img: Image, rva: nat, d: Dll)
    requires d.names < Pow256(4) && d.nameRva < Pow256(4) && d.addressTable < Pow256(4)
    requires Holds(img, rva, DescriptorBytes(d))
    ensures ReadDescriptor(img, rva) == Some(Descriptor(d.names, d.nameRva, d.addressTable))
  {
    var a, b, c, e, f := Le(d.names, 4), Le(d.stamp, 4), Le(d.chain, 4), Le(d.nameRva, 4), Le(d.addressTable, 4);
    HoldsParts(img, rva, a + b + c + e, f);
    HoldsParts(img, rva, a + b + c, e);
    HoldsParts(img, rva, a + b, c);
    HoldsParts(img, rva, a, b);
    ValueHeld(img, rva, d.names, 4);
    ValueHeld(img, rva + 12, d.nameRva, 4);
    ValueHeld(img, rva + 16, d.addressTable, 4);
  }

  function Values(d: Dll, from: nat): seq<nat>
    requires from <= |d.items|
  {
    seq<nat>(|d.items| - from, i requires 0 <= i < |d.items| - from => EntryValue(d.items[from + i]))
  }

  lemma ValueFits(img: Image, item: Item)
    requires HoldsItem(img, item)
    ensures EntryValue(item) < Pow256(8)
    ensures EntryValue(item) / ORDINAL_FLAG % 2 == if item.ByOrdinal? then 1 else 0
    ensures item.ByOrdinal? ==> EntryValue(item) % 0x1_0000 == item.ordinal
  {
    assert Pow256(8) == 0x1_0000_0000_0000_0000;
  }

  lemma EntryHeld(img: Image, d: Dll, i: nat)
    requires HoldsEntries(img, d) && i < |d.items|
    ensures ReadWord(img, EntryTable(d) + 8 * i) == Some(EntryValue(d.items[i])) && EntryValue(d.items[i]) != 0
    ensures HoldsItem(img, d.items[i])
  {
    assert HoldsEntry(img, d, i);
    ValueFits(img, d.items[i]);
    ValueHeld(img, EntryTable(d) + 8 * i, EntryValue(d.items[i]), 8);
  }

  lemma EndHeld(img: Image, d: Dll)
    requires HoldsEntries(img, d)
    ensures ReadWord(img, EntryTable(d) + 8 * |d.items|) == Some(0)
  {
    assert Pow256(8) > 0;
    ValueHeld(img, EntryTable(d) + 8 * |d.items|, 0, 8);
  }

  lemma EntriesStep(img: Image, d: Dll, from: nat)
    requires HoldsEntries(img, d) && from < |d.items|
    requires Entries(img, EntryTable(d) + 8 * from + 8) == Values(d, from + 1)
    ensures Entries(img, EntryTable(d) + 8 * from) == Values(d, from)
  {
    EntryHeld(img, d, from);
    assert Values(d, from) == [EntryValue(d.items[from])] + Values(d, from + 1);
  }

  lemma {:induction false} EntriesHeld(img: Image, d: Dll, from: nat)
    requires HoldsEntries(img, d) && from <= |d.items|
    ensures Entries(img, EntryTable(d) + 8 * from) == Values(d, from)
    decreases |d.items| - from
  {
    if from == |d.items| {
      EndHeld(img, d);
    } else {
      EntriesHeld(img, d, from + 1);
      EntriesStep(img, d, from);
    }
  }

  lemma {:induction false} BoundAt(make: (nat, nat) -> Import, iat: nat, es: seq<nat>, i: nat)
    requires i < |es|
    ensures Bound(make, iat, es)[i] == make(es[i], iat + WORD_SIZE * i)
    decreases |es|
  {
    if i < |es| - 1 {
      BoundAt(make, iat, es[..|es| - 1], i);
    }
  }

  lemma {:induction false} SlotAddressAt(img: Image, iat: nat, n: nat, i: nat)
    requires i < n
    ensures SlotAddresses(img, iat, n)[i] == img.base + iat + WORD_SIZE * i
  {
    if i < n - 1 {
      SlotAddressAt(img, iat, n - 1, i);
    }
  }

  /** An entry reads back as its name or ordinal, with the address in its slot. */
  lemma ImportHeld(img: Image, d: Dll, i: nat)
    requires HoldsEntries(img, d) && HoldsBound(img, d) && i < |d.items|
    ensures ImportOf(img, d.name, EntryValue(d.items[i]), d.addressTable + 8 * i) == NamedAs(img, d, i)
  {
    EntryHeld(img, d, i);
    ValueFits(img, d.items[i]);
    ValueHeld(img, d.addressTable + 8 * i, d.bound[i], 8);
    if d.items[i].ByName? {
      StringHeld(img, d.items[i].rva + 2, d.items[i].name);
    }
  }

  lemma DllHeld(img: Image, rva: nat, d: Dll)
    requires HoldsDll(img, rva, d)
    ensures var desc := Descriptor(d.names, d.nameRva, d.addressTable);
            ImportsOf(img, desc) == ListedImports(img, d) && SlotsOf(img, desc) == ListedSlots(img, d)
  {
    var desc := Descriptor(d.names, d.nameRva, d.addressTable);
    StringHeld(img, d.nameRva, d.name);
    EntriesHeld(img, d, 0);
    var es := EntriesOf(img, desc);
    assert es == Values(d, 0) && DllName(img, desc) == d.name;
    forall i: nat | i < |es| ensures ImportsOf(img, desc)[i] == NamedAs(img, d, i) {
      BoundAt(ImportBy(img, d.name), d.addressTable, es, i);
      ImportHeld(img, d, i);
    }
    forall i: nat | i < |es| ensures SlotsOf(img, desc)[i] == ListedSlots(img, d)[i] {
      SlotAddressAt(img, d.addressTable, |es|, i);
    }
  }

  function DescriptorsOf(table: seq<Dll>): seq<Descriptor> {
    if table == [] then []
    else [Descriptor(table[0].names, table[0].nameRva, table[0].addressTable)] + DescriptorsOf(table[1..])
  }

  lemma {:induction false} StringRead(img: Image, rva: nat)
    requires rva != 0 && CStringFrom(img, rva).Some?
    ensures HoldsString(img, rva, CStringFrom(img, rva).value)
    decreases |img.mem| - rva
  {
    var s := CStringFrom(img, rva).value;
    if img.mem[rva] == 0 {
      assert img.mem[rva..rva + 1] == s + [0];
    } else {
      StringRead(img, rva + 1);
      assert img.mem[rva..rva + |s + [0]|] == [img.mem[rva]] + img.mem[rva + 1..rva + 1 + |s[1..] + [0]|];
      assert s + [0] == [img.mem[rva]] + (s[1..] + [0]);
    }
  }

  lemma BrokenHeld(img: Image, rva: nat, d: Dll)
    requires HoldsEnd(img, rva, Broken(d))
    ensures Descriptors(img, rva) == ([], false)
  {
    DescriptorHeld(img, rva, d);
    if CString(img, d.nameRva).Some? {
      StringRead(img, d.nameRva);
    }
  }

  lemma EndOfTable(img: Image, rva: nat)
    requires Holds(img, rva, seq(20, _ => 0))
    ensures ReadDescriptor(img, rva).Some? && ReadDescriptor(img, rva).value.name == 0
  {
    var zeros: seq<byte> := seq(20, _ => 0);
    assert Le(0, 4) == [0, 0, 0, 0] && Pow256(4) > 0;
    assert zeros == zeros[..12] + Le(0, 4) + zeros[16..];
    HoldsParts(img, rva, zeros[..12] + Le(0, 4), zeros[16..]);
    HoldsParts(img, rva, zeros[..12], Le(0, 4));
    ValueHeld(img, rva + 12, 0, 4);
  }

  lemma DescriptorNext(img: Image, rva: nat, d: Dll)
    requires HoldsDll(img, rva, d)
    ensures var rest := Descriptors(img, rva + 20);
            Descriptors(img, rva) == ([Descriptor(d.names, d.nameRva, d.addressTable)] + rest.0, rest.1)
  {
    DescriptorHeld(img, rva, d);
    StringHeld(img, d.nameRva, d.name);
  }

  lemma EndsThere(img: Image, rva: nat, end: End)
    requires HoldsEnd(img, rva, end)
    ensures Descriptors(img, rva) == ([], !end.Broken?)
  {
    match end
    case Terminator => EndOfTable(img, rva);
    case OfImage =>
    case Broken(d) => BrokenHeld(img, rva, d);
  }

  lemma DescriptorsStep(img: Image, rva: nat, table: seq<Dll>, complete: bool)
    requires table != [] && HoldsDll(img, rva, table[0])
    requires Descriptors(img, rva + 20) == (DescriptorsOf(table[1..]), complete)
    ensures Descriptors(img, rva) == (DescriptorsOf(table), complete)
  {
    DescriptorNext(img, rva, table[0]);
  }

  lemma {:induction false} DescriptorsHeld(img: Image, rva: nat, table: seq<Dll>, end: End)
    requires HoldsTable(img, rva, table, end)
    ensures Descriptors(img, rva) == (DescriptorsOf(table), !end.Broken?)
    decreases |table|
  {
    if table == [] {
      EndsThere(img, rva, end);
    } else {
      DescriptorsHeld(img, rva + 20, table[1..], end);
      DescriptorsStep(img, rva, table, !end.Broken?);
    }
  }

  lemma {:induction false} FlatFirst<T>(f: Descriptor -> seq<T>, d: Descriptor, ds: seq<Descriptor>)
    ensures Flat(f, [d] + ds) == f(d) + Flat(f, ds)
    decreases |ds|
  {
    if ds == [] {
      assert [d] + ds == [d];
      assert Flat(f, [d]) == Flat(f, []) + f(d);
    } else {
      var front, last := ds[..|ds| - 1], ds[|ds| - 1];
      FlatFirst(f, d, front);
      assert ([d] + ds)[..|ds|] == [d] + front;
    }
  }

  /** Of every directory laid out so, exactly its imports and its slots are listed, in its order. */
  lemma {:induction false} TableListed(img: Image, rva: nat, table: seq<Dll>, end: End)
    requires HoldsTable(img, rva, table, end)
    ensures AllImports(img, DescriptorsOf(table)) == ImportsListed(img, table)
    ensures AllSlots(img, DescriptorsOf(table)) == SlotsListed(img, table)
    decreases |table|
  {
    if table != [] {
      var desc := Descriptor(table[0].names, table[0].nameRva, table[0].addressTable);
      DllHeld(img, rva, table[0]);
      TableListed(img, rva + 20, table[1..], end);
      FlatFirst(ImportsBy(img), desc, DescriptorsOf(table[1..]));
      FlatFirst(SlotsBy(img), desc, DescriptorsOf(table[1..]));
    }
  }

  /**
   The walks read such a directory back: the imports of its descriptors whatever ends it, and the
   slots unless that is a descriptor whose DLL name cannot be read.
   */
  method ListLaidOut(img: Image, rva: nat, ghost table: seq<Dll>, ghost end: End)
    returns (imports: seq<Import>, slots: Option<seq<nat>>)
    requires HoldsTable(img, rva, table, end)
    ensures imports == ImportsListed(img, table)
    ensures slots == if end.Broken? then None else Some(SlotsListed(img, table))
  {
    imports, slots := ListBoth(img, Some(rva));
    DescriptorsHeld(img, rva, table, end);
    TableListed(img, rva, table, end);
  }
}
