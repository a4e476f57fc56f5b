/** The translation tables and the layout they are filled from (src/memory/mmu.rs, src/memory.rs). */
module Mmu {
  import opened Arithmetic

  datatype MemAttributes = CacheableDRAM | NonCacheableDRAM | Device
  datatype AccessPermissions = ReadOnly | ReadWrite
  datatype AttributeFields = AttributeFields(mem: MemAttributes, perms: AccessPermissions, executeNever: bool)
  datatype Translation = Identity | Offset(base: nat)

  /** A range of virtual addresses, both ends inclusive. */
  datatype RangeDescriptor = RangeDescriptor(first: nat, last: nat, translation: Translation, attributes: AttributeFields)

  datatype KernelVirtualLayout = KernelVirtualLayout(maxVirtAddr: nat, ranges: seq<RangeDescriptor>)

  datatype Result<T> = Ok(value: T) | Err

  const DEFAULT := AttributeFields(CacheableDRAM, ReadWrite, true)
  const PAGE := 0x1_0000            // 64 KiB
  const BLOCK := 0x2000_0000        // 512 MiB
  const PAGES_PER_BLOCK := 8192
  const ADDR_SPACE := 0x1_0000_0000 // 4 GiB
  const BLOCKS := 8
  const MAX_OUTPUT := 0x1_0000_0000_0000

  // ----- The layout -----------------------------------------------------------------------------------

  predicate Contains(r: RangeDescriptor, va: nat) {
    r.first <= va <= r.last
  }

  function Output(r: RangeDescriptor, va: nat): nat
    requires Contains(r, va)
  {
    if r.translation.Identity? then va else r.translation.base + (va - r.first)
  }

  /** The first range that contains an address decides; elsewhere memory is normal DRAM. */
  function Lookup(ranges: seq<RangeDescriptor>, va: nat): (nat, AttributeFields) {
    if ranges == [] then (va, DEFAULT)
    else if Contains(ranges[0], va) then (Output(ranges[0], va), ranges[0].attributes)
    else Lookup(ranges[1..], va)
  }

  method VirtAddrProperties(layout: KernelVirtualLayout, va: nat) returns (r: Result<(nat, AttributeFields)>)
    ensures r == if va > layout.maxVirtAddr then Err else Ok(Lookup(layout.ranges, va))
  {
    if va > layout.maxVirtAddr {
      return Err;
    }
    var i := 0;
    while i < |layout.ranges|
      invariant i <= |layout.ranges|
      invariant Lookup(layout.ranges, va) == Lookup(layout.ranges[i..], va)
    {
      if Contains(layout.ranges[i], va) {
        return Ok((Output(layout.ranges[i], va), layout.ranges[i].attributes));
      }
      i := i + 1;
    }
    return Ok((va, DEFAULT));
  }

  // ----- Descriptors ----------------------------------------------------------------------------------

  /** The fields of a descriptor do not overlap, so or-ing them is adding them. */
  function TableDescriptor(nextTable: nat): nat {
    1 + 2 + nextTable / PAGE % 0x1_0000_0000 * 0x1_0000
  }

  function AttrIndex(m: MemAttributes): nat {
    match m
    case Device => 0
    case CacheableDRAM => 1
    case NonCacheableDRAM => 2
  }

  function Shareability(m: MemAttributes): nat {
    if m.Device? then 2 else 3
  }

  function AttributeBits(a: AttributeFields): nat {
    4 * AttrIndex(a.mem) + 64 * (if a.perms.ReadOnly? then 2 else 0) + 256 * Shareability(a.mem)
    + (if a.executeNever then 0x20_0000_0000_0000 else 0)
  }

  function PageDescriptor(output: nat, a: AttributeFields): nat {
    1 + 2 + 1024 + AttributeBits(a) + output / PAGE % 0x1_0000_0000 * 0x1_0000
  }

  /** `d` bits from `low` on. */
  function Field(d: nat, low: nat, size: nat): nat
    requires low > 0 && size > 0
  {
    d / low % size
  }

  predicate IsTableOrPage(d: nat) {
    Field(d, 1, 2) == 1 && Field(d, 2, 2) == 1
  }

  /** What the hardware reads out of the address field of a descriptor. */
  function Address(d: nat): nat {
    Field(d, 0x1_0000, 0x1_0000_0000) * PAGE
  }

  datatype Shareable = NotShareable | OuterShareable | InnerShareable

  /** What the hardware makes of a page: its memory type, what EL1 may do, whether EL0 may do the same, who shares it,
      and whether EL1 may not execute it. */
  datatype PageAttributes = PageAttributes(mem: MemAttributes, el1: AccessPermissions, el0: bool, share: Shareable, executeNever: bool)

  /** Decodes the access permissions (0 RW_EL1, 1 RW_EL1_EL0, 2 RO_EL1, 3 RO_EL1_EL0), the shareability (0 none, 2 outer,
      3 inner, 1 reserved), the memory type that the attribute index stands for, and the execute-never bit. */
  function DecodeAttributes(d: nat): Result<PageAttributes> {
    var index, ap, sh := Field(d, 4, 8), Field(d, 64, 4), Field(d, 256, 4);
    if Field(d, 1024, 2) != 1 || index > 2 || sh == 1 then Err
    else
      Ok(PageAttributes(if index == 0 then Device else if index == 1 then CacheableDRAM else NonCacheableDRAM,
                        if ap == 0 || ap == 1 then ReadWrite else ReadOnly, ap == 1 || ap == 3,
                        if sh == 0 then NotShareable else if sh == 2 then OuterShareable else InnerShareable,
                        Field(d, 0x20_0000_0000_0000, 2) == 1))
  }

  /** How the attributes of a range appear to the hardware: EL0 has no access, device memory is outer shareable, DRAM
      is inner shareable. */
  function Seen(a: AttributeFields): PageAttributes {
    PageAttributes(a.mem, a.perms, false, if a.mem.Device? then OuterShareable else InnerShareable, a.executeNever)
  }

  /** An address and its attributes as the hardware sees them. */
  function SeenAt(x: (nat, AttributeFields)): (nat, PageAttributes) {
    (x.0, Seen(x.1))
  }

  /** A field is found where it was put. */
  lemma FieldOf(below: nat, low: nat, value: nat, size: nat, above: nat)
    requires below < low && value < size
    ensures Field(below + low * (value + size * above), low, size) == value
  {
    var x := value + size * above;
    DivMod(below + low * x, low, x, below);
    DivMod(x, size, above, value);
  }

  lemma TableDecodes(t: nat)
    requires t % PAGE == 0 && t < MAX_OUTPUT
    ensures IsTableOrPage(TableDescriptor(t)) && Address(TableDescriptor(t)) == t
  {
    var p := t / PAGE;
    FieldOf(0, 1, 1, 2, 1 + 0x8000 * p);
    FieldOf(1, 2, 1, 2, 0x4000 * p);
    FieldOf(3, 0x1_0000, p, 0x1_0000_0000, 0);
  }

  lemma LowFields(idx: nat, ap: nat, sh: nat, p: nat, xn: nat)
    requires idx < 8 && ap < 4 && sh < 4 && p < 0x1_0000_0000 && xn < 2
    ensures var d := 1 + 2 + 4 * idx + 64 * ap + 256 * sh + 1024 + 0x1_0000 * p + 0x20_0000_0000_0000 * xn;
            Field(d, 1, 2) == 1 && Field(d, 2, 2) == 1 && Field(d, 4, 8) == idx && Field(d, 64, 4) == ap && Field(d, 256, 4) == sh && Field(d, 1024, 2) == 1
  {
    var h := p + 0x20_0000_0000 * xn;
    FieldOf(0, 1, 1, 2, 1 + 2 * idx + 32 * ap + 128 * sh + 512 + 0x8000 * h);
    FieldOf(1, 2, 1, 2, idx + 16 * ap + 64 * sh + 256 + 0x4000 * h);
    FieldOf(3, 4, idx, 8, 2 * ap + 8 * sh + 32 + 0x800 * h);
    FieldOf(3 + 4 * idx, 64, ap, 4, sh + 4 + 0x100 * h);
    FieldOf(3 + 4 * idx + 64 * ap, 256, sh, 4, 1 + 0x40 * h);
    FieldOf(3 + 4 * idx + 64 * ap + 256 * sh, 1024, 1, 2, 0x20 * h);
  }

  lemma HighFields(low: nat, p: nat, xn: nat)
    requires low < 0x1_0000 && p < 0x1_0000_0000 && xn < 2
    ensures var d := low + 0x1_0000 * p + 0x20_0000_0000_0000 * xn;
            Field(d, 0x1_0000, 0x1_0000_0000) == p && Field(d, 0x20_0000_0000_0000, 2) == xn
  {
    FieldOf(low, 0x1_0000, p, 0x1_0000_0000, 32 * xn);
    FieldOf(low + 0x1_0000 * p, 0x20_0000_0000_0000, xn, 2, 0);
  }

  lemma PageDecodes(output: nat, a: AttributeFields)
    requires output < MAX_OUTPUT
    ensures var d := PageDescriptor(output, a);
            IsTableOrPage(d) && Address(d) == output / PAGE * PAGE && DecodeAttributes(d) == Ok(Seen(a))
  {
    var ap := if a.perms.ReadOnly? then 2 else 0;
    var xn := if a.executeNever then 1 else 0;
    var p := output / PAGE;
    LowFields(AttrIndex(a.mem), ap, Shareability(a.mem), p, xn);
    HighFields(1 + 2 + 4 * AttrIndex(a.mem) + 64 * ap + 256 * Shareability(a.mem) + 1024, p, xn);
  }

  // ----- Pages are uniform when ranges are aligned -------------------------------------------------------

  predicate AlignedRange(r: RangeDescriptor) {
    r.first % PAGE == 0 && (r.last + 1) % PAGE == 0 && (r.translation.Offset? ==> r.translation.base % PAGE == 0)
  }

  function PageOf(va: nat): nat {
    va / PAGE * PAGE
  }

  /** A page has the properties of its first byte throughout. */
  predicate Uniform(ranges: seq<RangeDescriptor>, va: nat) {
    Lookup(ranges, va) == (Lookup(ranges, PageOf(va)).0 / PAGE * PAGE + va % PAGE, Lookup(ranges, PageOf(va)).1)
  }

  lemma ContainsPage(r: RangeDescriptor, va: nat)
    requires AlignedRange(r)
    ensures Contains(r, va) <==> Contains(r, PageOf(va))
    ensures Contains(r, va) ==> Output(r, PageOf(va)) % PAGE == 0 && Output(r, va) == Output(r, PageOf(va)) + va % PAGE
  {
    var k := r.first / PAGE;
    var n := (r.last + 1) / PAGE;
    assert r.first == PAGE * k && r.last + 1 == PAGE * n;
  }

  lemma {:induction false} AlignedUniform(ranges: seq<RangeDescriptor>, va: nat)
    requires forall i :: 0 <= i < |ranges| ==> AlignedRange(ranges[i])
    ensures Uniform(ranges, va) && Lookup(ranges, PageOf(va)).0 % PAGE == 0
  {
    if ranges != [] {
      ContainsPage(ranges[0], va);
      AlignedUniform(ranges[1..], va);
    }
  }

  // ----- The tables -----------------------------------------------------------------------------------------

  /** The page descriptor that is written for page `p` of block `b`. */
  function Entry(layout: KernelVirtualLayout, b: nat, p: nat): nat {
    var (output, attributes) := Lookup(layout.ranges, b * BLOCK + p * PAGE);
    PageDescriptor(output, attributes)
  }

  class TranslationTables {
    const base: nat                 // the address of the first level 3 table
    const lvl3: array2<nat>
    const lvl2: array<nat>

    constructor (base: nat)
      requires base % PAGE == 0 && base + BLOCKS * PAGE <= MAX_OUTPUT
      ensures Valid() && fresh(lvl2) && fresh(lvl3)
    {
      this.base := base;
      lvl3 := new nat[BLOCKS, PAGES_PER_BLOCK]((_, _) => 0);
      lvl2 := new nat[BLOCKS](_ => 0);
    }

    predicate Valid() {
      && base % PAGE == 0 && base + BLOCKS * PAGE <= MAX_OUTPUT
      && lvl3.Length0 == BLOCKS && lvl3.Length1 == PAGES_PER_BLOCK && lvl2.Length == BLOCKS
    }

    ghost predicate Filled(layout: KernelVirtualLayout)
      requires Valid()
      reads lvl2, lvl3
    {
      && (forall b :: 0 <= b < BLOCKS ==> lvl2[b] == TableDescriptor(base + b * PAGE))
      && (forall b, p :: 0 <= b < BLOCKS && 0 <= p < PAGES_PER_BLOCK ==> lvl3[b, p] == Entry(layout, b, p))
    }

    /** `populate_tt_entries` */
    method Populate(layout: KernelVirtualLayout) returns (r: Result<()>)
      requires Valid()
      modifies lvl2, lvl3
      ensures r.Ok? <==> layout.maxVirtAddr >= ADDR_SPACE - PAGE
      ensures r.Ok? ==> Filled(layout)
    {
      var b := 0;
      while b < BLOCKS
        invariant b <= BLOCKS
        invariant b > 0 ==> layout.maxVirtAddr >= b * BLOCK - PAGE
        invariant forall c :: 0 <= c < b ==> lvl2[c] == TableDescriptor(base + c * PAGE)
        invariant forall c, p :: 0 <= c < b && 0 <= p < PAGES_PER_BLOCK ==> lvl3[c, p] == Entry(layout, c, p)
      {
        lvl2[b] := TableDescriptor(base + b * PAGE);
        var p := 0;
        while p < PAGES_PER_BLOCK
          invariant p <= PAGES_PER_BLOCK
          invariant p > 0 ==> layout.maxVirtAddr >= b * BLOCK + (p - 1) * PAGE
          invariant forall c :: 0 <= c <= b ==> lvl2[c] == TableDescriptor(base + c * PAGE)
          invariant forall c, q :: 0 <= c < b && 0 <= q < PAGES_PER_BLOCK ==> lvl3[c, q] == Entry(layout, c, q)
          invariant forall q :: 0 <= q < p ==> lvl3[b, q] == Entry(layout, b, q)
        {
          var properties := VirtAddrProperties(layout, b * BLOCK + p * PAGE);
          if properties.Err? {
            return Err;
          }
          lvl3[b, p] := PageDescriptor(properties.value.0, properties.value.1);
          p := p + 1;
        }
        b := b + 1;
      }
      return Ok(());
    }

    /** The walk the hardware does: a level 2 descriptor leads to a level 3 table, whose descriptor gives the
        output page and the attributes. */
    ghost function Walk(va: nat): Result<(nat, PageAttributes)>
      requires Valid() && va < ADDR_SPACE
      reads lvl2, lvl3
    {
      var d2 := lvl2[va / BLOCK];
      if !IsTableOrPage(d2) || Address(d2) < base || (Address(d2) - base) / PAGE >= BLOCKS then Err
      else
        var d3 := lvl3[(Address(d2) - base) / PAGE, va % BLOCK / PAGE];
        if !IsTableOrPage(d3) || DecodeAttributes(d3).Err? then Err
        else Ok((Address(d3) + va % PAGE, DecodeAttributes(d3).value))
    }
  }

  /** What a walk through filled tables gives: the properties of the first byte of the page. */
  lemma WalkGivesPage(t: TranslationTables, layout: KernelVirtualLayout, va: nat)
    requires t.Valid() && t.Filled(layout) && va < ADDR_SPACE && Lookup(layout.ranges, PageOf(va)).0 < MAX_OUTPUT
    ensures t.Walk(va) == Ok((Lookup(layout.ranges, PageOf(va)).0 / PAGE * PAGE + va % PAGE, Seen(Lookup(layout.ranges, PageOf(va)).1)))
  {
    var b, p := va / BLOCK, va % BLOCK / PAGE;
    Indices(va);
    BlockTable(t, b);
    var (output, attributes) := Lookup(layout.ranges, PageOf(va));
    PageDecodes(output, attributes);
    assert t.lvl2[b] == TableDescriptor(t.base + b * PAGE);
    assert t.lvl3[b, p] == Entry(layout, b, p) == PageDescriptor(output, attributes);
  }

  lemma Indices(va: nat)
    requires va < ADDR_SPACE
    ensures va / BLOCK < BLOCKS && va % BLOCK / PAGE < PAGES_PER_BLOCK && va / BLOCK * BLOCK + va % BLOCK / PAGE * PAGE == PageOf(va)
  {}

  /** A level 2 descriptor leads to its level 3 table. */
  lemma BlockTable(t: TranslationTables, b: nat)
    requires t.Valid() && b < BLOCKS
    ensures var d := TableDescriptor(t.base + b * PAGE);
            IsTableOrPage(d) && Address(d) >= t.base && (Address(d) - t.base) / PAGE == b
  {
    assert (t.base + b * PAGE) % PAGE == 0;
    TableDecodes(t.base + b * PAGE);
    DivMod(b * PAGE, PAGE, b, 0);
  }

  /** The tables refine the layout: for every address of the space, walking them gives the output address and
      the attributes of `virt_addr_properties`, provided ranges and offsets are 64 KiB aligned. */
  lemma WalkRefinesLayout(t: TranslationTables, layout: KernelVirtualLayout, va: nat)
    requires t.Valid() && t.Filled(layout) && va < ADDR_SPACE
    requires forall i :: 0 <= i < |layout.ranges| ==> AlignedRange(layout.ranges[i])
    requires Lookup(layout.ranges, PageOf(va)).0 < MAX_OUTPUT
    ensures t.Walk(va) == Ok(SeenAt(Lookup(layout.ranges, va)))
  {
    AlignedUniform(layout.ranges, va);
    WalkGivesPage(t, layout, va);
  }

  /** What EL1 and EL0 may do at an address, who shares it and where it leads, range by range. An address in no range is
      ordinary memory at the same address: read and written by EL1 only, never executed, inner shareable. */
  lemma WalkMeans(t: TranslationTables, layout: KernelVirtualLayout, va: nat, i: nat)
    requires t.Valid() && t.Filled(layout) && va < ADDR_SPACE && i <= |layout.ranges|
    requires forall k :: 0 <= k < |layout.ranges| ==> AlignedRange(layout.ranges[k])
    requires Lookup(layout.ranges, PageOf(va)).0 < MAX_OUTPUT
    requires forall k :: 0 <= k < i ==> !(layout.ranges[k].first <= va <= layout.ranges[k].last)
    requires i < |layout.ranges| ==> layout.ranges[i].first <= va <= layout.ranges[i].last
    ensures t.Walk(va).Ok?
    ensures var (output, a) := t.Walk(va).value;
            if i == |layout.ranges| then output == va && a == PageAttributes(CacheableDRAM, ReadWrite, false, InnerShareable, true)
            else
              var r := layout.ranges[i];
              && output == (if r.translation.Identity? then va else r.translation.base + va - r.first)
              && a.mem == r.attributes.mem && a.el1 == r.attributes.perms && !a.el0 && a.executeNever == r.attributes.executeNever
              && a.share == (if a.mem.Device? then OuterShareable else InnerShareable)
  {
    WalkRefinesLayout(t, layout, va);
    FirstContains(layout.ranges, va, i);
  }

  lemma {:induction false} FirstContains(ranges: seq<RangeDescriptor>, va: nat, i: nat)
    requires i <= |ranges| && forall k :: 0 <= k < i ==> !Contains(ranges[k], va)
    requires i < |ranges| ==> Contains(ranges[i], va)
    ensures Lookup(ranges, va) == if i == |ranges| then (va, DEFAULT) else (Output(ranges[i], va), ranges[i].attributes)
  {
    if i > 0 {
      FirstContains(ranges[1..], va, i - 1);
    }
  }

  // ----- When alignment is necessary ------------------------------------------------------------------------

  /** Ranges of the address space that do not overlap and whose attributes differ from each other and from those of
      the memory between them. */
  ghost predicate Separate(ranges: seq<RangeDescriptor>) {
    && (forall i :: 0 <= i < |ranges| ==> ranges[i].first <= ranges[i].last < ADDR_SPACE && ranges[i].attributes != DEFAULT)
    && (forall i, j :: 0 <= i < j < |ranges| ==> Apart(ranges[i], ranges[j]))
  }

  predicate Apart(r: RangeDescriptor, q: RangeDescriptor) {
    r.attributes != q.attributes && (r.last < q.first || q.last < r.first)
  }

  /** In separate ranges an address has the attributes of a range exactly if it lies in it. */
  lemma {:induction false} LookupExactly(ranges: seq<RangeDescriptor>, i: nat, va: nat)
    requires Separate(ranges) && i < |ranges|
    ensures Contains(ranges[i], va) <==> Lookup(ranges, va).1 == ranges[i].attributes
    ensures Contains(ranges[i], va) ==> Lookup(ranges, va).0 == Output(ranges[i], va)
    decreases |ranges|
  {
    var rest := ranges[1..];
    assert Separate(rest) by {
      assert forall k :: 0 <= k < |rest| ==> rest[k] == ranges[k+1];
    }
    if i > 0 {
      assert Apart(ranges[0], ranges[i]);
      LookupExactly(rest, i - 1, va);
    } else {
      LookupOthers(rest, ranges[0], va);
    }
  }

  lemma {:induction false} LookupOthers(ranges: seq<RangeDescriptor>, r: RangeDescriptor, va: nat)
    requires r.attributes != DEFAULT && forall k :: 0 <= k < |ranges| ==> ranges[k].attributes != r.attributes
    ensures Lookup(ranges, va).1 != r.attributes
    decreases |ranges|
  {
    if ranges != [] {
      LookupOthers(ranges[1..], r, va);
    }
  }

  /** An address at which the page of a misaligned range differs from the range. */
  function WrongAt(r: RangeDescriptor): nat {
    if r.first % PAGE != 0 then r.first else if (r.last + 1) % PAGE != 0 then r.last + 1 else r.first
  }

  lemma PartOfPage(r: RangeDescriptor)
    requires r.first <= r.last < ADDR_SPACE && (r.first % PAGE != 0 || (r.last + 1) % PAGE != 0)
    ensures WrongAt(r) < ADDR_SPACE && (Contains(r, WrongAt(r)) <==> !Contains(r, PageOf(WrongAt(r))))
  {
    if r.first % PAGE == 0 {
      assert r.first == PAGE * (r.first / PAGE);
    }
  }

  lemma MisalignedBreaks(t: TranslationTables, layout: KernelVirtualLayout, i: nat)
    requires t.Valid() && t.Filled(layout) && Separate(layout.ranges) && i < |layout.ranges| && !AlignedRange(layout.ranges[i])
    requires forall va: nat :: va < ADDR_SPACE ==> Lookup(layout.ranges, va).0 < MAX_OUTPUT
    ensures var va := WrongAt(layout.ranges[i]); va < ADDR_SPACE && t.Walk(va) != Ok(SeenAt(Lookup(layout.ranges, va)))
  {
    var r := layout.ranges[i];
    var va := WrongAt(r);
    LookupExactly(layout.ranges, i, va);
    LookupExactly(layout.ranges, i, PageOf(va));
    WalkGivesPage(t, layout, va);
    if r.first % PAGE != 0 || (r.last + 1) % PAGE != 0 {
      PartOfPage(r);
    }
  }

  /** For separate ranges, as those of the kernel are, alignment is necessary too: walking the tables agrees with the
      layout everywhere if and only if every range and every offset is 64 KiB aligned. */
  lemma AlignmentExactly(t: TranslationTables, layout: KernelVirtualLayout)
    requires t.Valid() && t.Filled(layout) && Separate(layout.ranges)
    requires forall va: nat :: va < ADDR_SPACE ==> Lookup(layout.ranges, va).0 < MAX_OUTPUT
    ensures (forall va: nat :: va < ADDR_SPACE ==> t.Walk(va) == Ok(SeenAt(Lookup(layout.ranges, va))))
            <==> forall i :: 0 <= i < |layout.ranges| ==> AlignedRange(layout.ranges[i])
  {
    if i :| 0 <= i < |layout.ranges| && !AlignedRange(layout.ranges[i]) {
      MisalignedBreaks(t, layout, i);
    } else {
      forall va: nat | va < ADDR_SPACE
        ensures t.Walk(va) == Ok(SeenAt(Lookup(layout.ranges, va)))
      {
        assert PageOf(va) < ADDR_SPACE;
        WalkRefinesLayout(t, layout, va);
      }
    }
  }

  // ----- The kernel's layout --------------------------------------------------------------------------------------

  const CODE := AttributeFields(CacheableDRAM, ReadOnly, false)
  const DMA := AttributeFields(NonCacheableDRAM, ReadWrite, true)
  const MMIO := AttributeFields(Device, ReadWrite, true)

  /** Code and read-only data up to `roEnd`, which is not included; the heap up to `heapEnd`, which is; and the
      device registers. */
  function KernelLayout(roStart: nat, roEnd: nat, heapStart: nat, heapEnd: nat, mmioStart: nat, mmioEnd: nat): KernelVirtualLayout
    requires roEnd > 0
  {
    KernelVirtualLayout(ADDR_SPACE - 1, [RangeDescriptor(roStart, roEnd - 1, Identity, CODE),
                                         RangeDescriptor(heapStart, heapEnd, Identity, DMA),
                                         RangeDescriptor(mmioStart, mmioEnd, Identity, MMIO)])
  }

  lemma {:induction false} IdentityOutputs(ranges: seq<RangeDescriptor>, va: nat)
    requires forall i :: 0 <= i < |ranges| ==> ranges[i].translation.Identity?
    ensures Lookup(ranges, va).0 == va
    decreases |ranges|
  {
    if ranges != [] {
      IdentityOutputs(ranges[1..], va);
    }
  }

  /** The end of memory as the boot loader reports it is the first address behind it and a multiple of 64 KiB. Used
      as an inclusive end, it makes a page non-cacheable of which the layout puts one byte into the heap. */
  lemma HeapEndBreaks(t: TranslationTables, roStart: nat, roEnd: nat, heapStart: nat, heapEnd: nat, mmioStart: nat, mmioEnd: nat, va: nat)
    requires t.Valid() && 0 < roEnd && t.Filled(KernelLayout(roStart, roEnd, heapStart, heapEnd, mmioStart, mmioEnd))
    requires roStart < roEnd <= heapStart <= heapEnd && heapEnd + PAGE <= mmioStart <= mmioEnd < ADDR_SPACE
    requires heapEnd % PAGE == 0 && heapEnd < va < heapEnd + PAGE
    ensures var ranges := KernelLayout(roStart, roEnd, heapStart, heapEnd, mmioStart, mmioEnd).ranges;
            Lookup(ranges, va) == (va, DEFAULT) && t.Walk(va) == Ok((va, Seen(DMA)))
  {
    var layout := KernelLayout(roStart, roEnd, heapStart, heapEnd, mmioStart, mmioEnd);
    var ranges := layout.ranges;
    KernelLookup(ranges[0], ranges[1], ranges[2], va);
    KernelLookup(ranges[0], ranges[1], ranges[2], heapEnd);
    WithinPage(heapEnd, va);
    WalkGivesPage(t, layout, va);
  }

  lemma KernelLookup(a: RangeDescriptor, b: RangeDescriptor, c: RangeDescriptor, va: nat)
    requires b.translation.Identity?
    ensures !Contains(a, va) && Contains(b, va) ==> Lookup([a, b, c], va) == (va, b.attributes)
    ensures !Contains(a, va) && !Contains(b, va) && !Contains(c, va) ==> Lookup([a, b, c], va) == (va, DEFAULT)
  {
    assert [a, b, c][1..] == [b, c] && [b, c][1..] == [c] && [c][1..] == [];
    assert Lookup([c], va) == if Contains(c, va) then (Output(c, va), c.attributes) else Lookup([], va);
  }

  lemma WithinPage(page: nat, va: nat)
    requires page % PAGE == 0 && page <= va < page + PAGE
    ensures PageOf(va) == page && page / PAGE * PAGE + va % PAGE == va
  {}

  /** The kernel's layout agrees with the tables everywhere if and only if its six bounds are aligned, the inclusive
      ones as ends. */
  lemma KernelLayoutExactly(t: TranslationTables, roStart: nat, roEnd: nat, heapStart: nat, heapEnd: nat, mmioStart: nat, mmioEnd: nat)
    requires t.Valid() && 0 < roEnd && t.Filled(KernelLayout(roStart, roEnd, heapStart, heapEnd, mmioStart, mmioEnd))
    requires roStart < roEnd <= heapStart <= heapEnd < mmioStart <= mmioEnd < ADDR_SPACE
    ensures var ranges := KernelLayout(roStart, roEnd, heapStart, heapEnd, mmioStart, mmioEnd).ranges;
            (forall va: nat :: va < ADDR_SPACE ==> t.Walk(va) == Ok(SeenAt(Lookup(ranges, va))))
            <==> roStart % PAGE == roEnd % PAGE == heapStart % PAGE == (heapEnd + 1) % PAGE == mmioStart % PAGE == (mmioEnd + 1) % PAGE == 0
  {
    var layout := KernelLayout(roStart, roEnd, heapStart, heapEnd, mmioStart, mmioEnd);
    forall va: nat | va < ADDR_SPACE
      ensures Lookup(layout.ranges, va).0 < MAX_OUTPUT
    {
      IdentityOutputs(layout.ranges, va);
    }
    AlignmentExactly(t, layout);
    var ranges := layout.ranges;
    assert (forall i :: 0 <= i < |ranges| ==> AlignedRange(ranges[i])) <==> AlignedRange(ranges[0]) && AlignedRange(ranges[1]) && AlignedRange(ranges[2]);
  }
}
