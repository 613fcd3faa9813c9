/** The kernel's global descriptor table (kernel/src/gdt.rs): a null descriptor, flat
    ring-0 and ring-3 code and data segments, and one task-state segment whose base and
    limit the kernel patches in at boot. A descriptor's fields are the packed x86 layout:
    limit bits 0-15, base bits 0-15, base bits 16-23, the access byte (flags0), limit
    bits 16-19 in the low nibble of flags1 with the G/DB/L/AVL bits above them, and base
    bits 24-31. */
module Gdt {
  import opened Machine

  // SDFlags0 bits
  const CODE_WRITABLE: byte := 0x02
  const DATA_READABLE: byte := 0x02
  const EXECUTABLE: byte := 0x08
  const NON_SYSTEM: byte := 0x10
  const DPL3: byte := 0x60
  const PRESENT: byte := 0x80
  const TSS_32BIT_AVAILABLE: byte := 0x09
  // SDFlags1 bits
  const DB: byte := 0x40
  const GRANULARITY: byte := 0x80

  /** Selectors of the table's entries; the ring-3 ones carry requested privilege 3. */
  const KERNEL_CS: u16 := 0x08
  const KERNEL_DS: u16 := 0x10
  const USER_CS: u16 := 0x18 + 3
  const USER_DS: u16 := 0x20 + 3
  const TSS_SELECTOR: u16 := 0x28

  datatype SegmentDescriptor = SegmentDescriptor(
    limit0: u16, base0: u16, base1: byte, flags0: byte, flags1Limit1: byte, base2: byte)

  // ---- what a descriptor says ----

  function Base(d: SegmentDescriptor): u32
  {
    d.base0 + d.base1 * HALF + d.base2 * 0x100_0000
  }

  /** The 20-bit limit. */
  function Limit(d: SegmentDescriptor): int
  {
    d.limit0 + (d.flags1Limit1 % 0x10) * HALF
  }

  function Dpl(d: SegmentDescriptor): int { d.flags0 / 0x20 % 4 }
  predicate Present(d: SegmentDescriptor) { d.flags0 / 0x80 == 1 }
  predicate NonSystem(d: SegmentDescriptor) { d.flags0 / 0x10 % 2 == 1 }
  predicate Executable(d: SegmentDescriptor) { d.flags0 / 0x08 % 2 == 1 }
  /** Writable for a data segment. `CODE_WRITABLE` shares its bit, which in a code
      segment makes it readable. */
  predicate ReadWrite(d: SegmentDescriptor) { d.flags0 / 0x02 % 2 == 1 }
  function SystemType(d: SegmentDescriptor): int { d.flags0 % 0x10 }
  predicate Granularity4K(d: SegmentDescriptor) { d.flags1Limit1 / 0x80 == 1 }
  predicate Default32(d: SegmentDescriptor) { d.flags1Limit1 / 0x40 % 2 == 1 }
  predicate LongMode(d: SegmentDescriptor) { d.flags1Limit1 / 0x20 % 2 == 1 }

  /** `x | DPL3` on an access byte: bits 5 and 6 set, the others kept. */
  function OrDpl3(x: byte): (r: byte)
    ensures r / 0x20 % 4 == 3
    ensures r / 0x80 == x / 0x80 && r % 0x20 == x % 0x20
  {
    x / 0x80 * 0x80 + DPL3 + x % 0x20
  }

  // ---- the fixed descriptors ----

  /** `SegmentDescriptor::zero`: base 0, limit 0, not present. */
  function Zero(): (d: SegmentDescriptor)
    ensures Base(d) == 0 && Limit(d) == 0 && !Present(d)
  {
    SegmentDescriptor(0, 0, 0, 0, 0, 0)
  }

  /** `base_code`: access byte PRESENT | NON_SYSTEM | EXECUTABLE | CODE_WRITABLE = 0x9a;
      flags1 is `0xff | DB | GRANULARITY`, which is still 0xff. */
  function BaseCode(): (d: SegmentDescriptor)
    ensures Base(d) == 0 && Limit(d) == 0xf00ff
    ensures Present(d) && NonSystem(d) && Executable(d) && ReadWrite(d) && Dpl(d) == 0
    ensures Granularity4K(d) && Default32(d)
  {
    SegmentDescriptor(0xff, 0, 0, 0x9a, 0xff, 0)
  }

  /** `base_data`: access byte PRESENT | NON_SYSTEM | DATA_READABLE = 0x92. */
  function BaseData(): (d: SegmentDescriptor)
    ensures Base(d) == 0 && Limit(d) == 0xf00ff
    ensures Present(d) && NonSystem(d) && !Executable(d) && ReadWrite(d) && Dpl(d) == 0
    ensures Granularity4K(d) && Default32(d)
  {
    SegmentDescriptor(0xff, 0, 0, 0x92, 0xff, 0)
  }

  function KernelCode(): SegmentDescriptor { BaseCode() }
  function KernelData(): SegmentDescriptor { BaseData() }

  /** `user_code`: the kernel code segment with privilege level 3. */
  function UserCode(): (d: SegmentDescriptor)
    ensures d == KernelCode().(flags0 := d.flags0) && Dpl(d) == 3
    ensures Present(d) && NonSystem(d) && Executable(d) && ReadWrite(d)
  {
    var desc := BaseCode();
    desc.(flags0 := OrDpl3(desc.flags0))
  }

  /** `user_data`: the kernel data segment with privilege level 3. */
  function UserData(): (d: SegmentDescriptor)
    ensures d == KernelData().(flags0 := d.flags0) && Dpl(d) == 3
    ensures Present(d) && NonSystem(d) && !Executable(d) && ReadWrite(d)
  {
    var desc := BaseData();
    desc.(flags0 := OrDpl3(desc.flags0))
  }

  /** `tss`: a present, ring-0 system descriptor of type "32-bit TSS (available)",
      with base and limit still 0. */
  function Tss(): (d: SegmentDescriptor)
    ensures Base(d) == 0 && Limit(d) == 0
    ensures Present(d) && !NonSystem(d) && Dpl(d) == 0 && SystemType(d) == TSS_32BIT_AVAILABLE
  {
    Zero().(flags0 := PRESENT + TSS_32BIT_AVAILABLE)
  }

  // ---- patching a descriptor ----

  /** `set_base`: the descriptor now starts at `base`; limit and flags are untouched. */
  function SetBase(d: SegmentDescriptor, base: u32): (r: SegmentDescriptor)
    ensures Base(r) == base
    ensures r.limit0 == d.limit0 && r.flags0 == d.flags0 && r.flags1Limit1 == d.flags1Limit1
  {
    d.(base0 := base % HALF, base1 := base / HALF % 0x100, base2 := base / 0x100_0000 % 0x100)
  }

  /** `set_limit`. With debug assertions on, a limit of 2^20 or more fails the assertion
      (None); otherwise the low 20 bits become the limit, and the base, access byte and
      the G/DB/L/AVL nibble are untouched. */
  function SetLimit(d: SegmentDescriptor, limit: u32, debugAssertions: bool): (r: Option<SegmentDescriptor>)
    ensures r.None? <==> debugAssertions && limit >= 0x10_0000
    ensures r.Some? ==> Limit(r.value) == limit % 0x10_0000
    ensures r.Some? ==> Base(r.value) == Base(d) && r.value.flags0 == d.flags0
    ensures r.Some? ==> r.value.flags1Limit1 / 0x10 == d.flags1Limit1 / 0x10
  {
    if debugAssertions && limit >= 0x10_0000 then None
    else
      var flags1 := d.flags1Limit1 / 0x10 * 0x10;                // &= 0xf0
      LimitSplit(limit, d.flags1Limit1);
      Some(d.(limit0 := limit % HALF, flags1Limit1 := flags1 + limit / HALF % 0x10))   // |= (limit >> 16) & 0xf
  }

  /** The low 16 bits and the next nibble of a limit make up its low 20 bits, and the
      nibble or-ed under the high nibble of a byte is read back from the low nibble. */
  lemma LimitSplit(limit: u32, f: byte)
    ensures limit % HALF + (limit / HALF % 0x10) * HALF == limit % 0x10_0000
    ensures var g := f / 0x10 * 0x10 + limit / HALF % 0x10;
      g < 0x100 && g / 0x10 == f / 0x10 && g % 0x10 == limit / HALF % 0x10
  {
    var a, b := limit % HALF, limit / HALF;
    var c, q := b % 0x10, b / 0x10;
    assert limit == b * HALF + a;
    assert b == q * 0x10 + c;
    assert limit == q * 0x10_0000 + (c * HALF + a);
    ModOfSplit(limit, q, c * HALF + a);
    NibbleOr(f, c);
  }

  /** x == q·2^20 + r with r below 2^20 gives x mod 2^20 == r. */
  lemma ModOfSplit(x: nat, q: nat, r: nat)
    requires x == q * 0x10_0000 + r && r < 0x10_0000
    ensures x % 0x10_0000 == r
  {
  }

  /** Or-ing a nibble under the high nibble of a byte. */
  lemma NibbleOr(f: byte, n: nat)
    requires n < 0x10
    ensures var g := f / 0x10 * 0x10 + n;
      g < 0x100 && g / 0x10 == f / 0x10 && g % 0x10 == n
  {
  }

  /** Patching the TSS descriptor as the kernel does at boot (base, then limit) leaves a
      present available-TSS descriptor with exactly that base and limit. */
  lemma TssPatched(base: u32, limit: u32, debugAssertions: bool)
    requires limit < 0x10_0000
    ensures var r := SetLimit(SetBase(Tss(), base), limit, debugAssertions);
      r.Some? && Base(r.value) == base && Limit(r.value) == limit &&
      Present(r.value) && SystemType(r.value) == TSS_32BIT_AVAILABLE && Dpl(r.value) == 0
  {
  }

  // ---- the table ----

  /** The table `GDT`; the three `Cell` fields are ordinary mutable fields here. */
  class Table {
    const zero: SegmentDescriptor
    var kernelCode: SegmentDescriptor
    const kernelData: SegmentDescriptor
    var userCode: SegmentDescriptor
    const userData: SegmentDescriptor
    var tss: SegmentDescriptor

    /** `Gdt::new` */
    constructor ()
      ensures Entries() == [Zero(), KernelCode(), KernelData(), UserCode(), UserData(), Tss()]
    {
      zero := Zero();
      kernelCode := KernelCode();
      kernelData := KernelData();
      userCode := UserCode();
      userData := UserData();
      tss := Tss();
    }

    /** The descriptors in memory order; a selector's index is `selector / 8`. */
    function Entries(): (e: seq<SegmentDescriptor>)
      reads this
      ensures |e| == 6
    {
      [zero, kernelCode, kernelData, userCode, userData, tss]
    }

    /** `GDT_DESC.size`: the table's size in bytes minus one. */
    function DescriptorSize(): (n: u16)
      ensures n == |Entries()| * 8 - 1
    {
      6 * 8 - 1
    }
  }

  /** The selectors the kernel and user programs load name the right descriptors, and every
      selector's requested privilege equals its descriptor's privilege level. */
  lemma SelectorsMatchTable(entries: seq<SegmentDescriptor>)
    requires entries == [Zero(), KernelCode(), KernelData(), UserCode(), UserData(), Tss()]
    ensures entries[KERNEL_CS / 8] == KernelCode() && Dpl(entries[KERNEL_CS / 8]) == KERNEL_CS % 4
    ensures entries[KERNEL_DS / 8] == KernelData() && Dpl(entries[KERNEL_DS / 8]) == KERNEL_DS % 4
    ensures entries[USER_CS / 8] == UserCode() && Dpl(entries[USER_CS / 8]) == USER_CS % 4 == 3
    ensures entries[USER_DS / 8] == UserData() && Dpl(entries[USER_DS / 8]) == USER_DS % 4 == 3
    ensures entries[TSS_SELECTOR / 8] == Tss()
  {
  }
}
