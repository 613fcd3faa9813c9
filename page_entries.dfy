/** The two 32-bit x86 paging entry formats (kernel/src/paging/entries.rs):
    a page-table entry maps one 4 KiB frame, a page-directory entry points at a
    page table or maps a 4 MiB page. Bit 0 is present, bit 1 read/write, bit 2
    user/supervisor, bit 7 of a directory entry the page-size ("huge") bit. */
module PageEntries {
  function Bit(b: bool): bv32 { if b then 1 else 0 }

  /** The low three bits shared by both entry formats: user, read/write, present. */
  function Flags(present: bool, rw: bool, us: bool): (f: bv32)
    ensures f & 0xfffffff8 == 0
    ensures (f & 1 != 0) == present
    ensures (f & 2 != 0) == rw
    ensures (f & 4 != 0) == us
  {
    (Bit(us) << 2) | (Bit(rw) << 1) | Bit(present)
  }

  // ---- page-table entries ----

  function PteFrameAddr(e: bv32): bv32 { e >> 12 }
  predicate PtePresent(e: bv32) { e & 1 != 0 }
  predicate PteRw(e: bv32) { e & 2 != 0 }
  predicate PteUs(e: bv32) { e & 4 != 0 }

  /** `PageTableEntry::new`: the frame index lands in bits 12..31 (its top twelve
      bits are shifted out), the three flags read back exactly, and bits 3..11 stay clear. */
  function PteNew(index: bv32, present: bool, rw: bool, us: bool): (e: bv32)
    ensures PteFrameAddr(e) == index & 0xfffff
    ensures PtePresent(e) == present && PteRw(e) == rw && PteUs(e) == us
    ensures e & 0xff8 == 0
  {
    var f := Flags(present, rw, us);
    (index << 12) | f
  }

  /** `PageTableEntry::empty`: nothing is mapped. */
  function PteEmpty(): (e: bv32)
    ensures !PtePresent(e) && !PteRw(e) && !PteUs(e) && PteFrameAddr(e) == 0
  {
    0
  }

  /** A frame index that fits in 20 bits survives the round trip through an entry. */
  lemma PteFrameRoundTrip(index: bv32, present: bool, rw: bool, us: bool)
    requires index < 0x100000
    ensures PteFrameAddr(PteNew(index, present, rw, us)) == index
  {
    assert index & 0xfffff == index;
  }

  /** An entry is determined by its frame index and its three flags. */
  lemma PteNewInjective(i: bv32, p: bool, r: bool, u: bool, j: bv32, q: bool, s: bool, v: bool)
    requires i < 0x100000 && j < 0x100000
    requires PteNew(i, p, r, u) == PteNew(j, q, s, v)
    ensures i == j && p == q && r == s && u == v
  {
    PteFrameRoundTrip(i, p, r, u);
    PteFrameRoundTrip(j, q, s, v);
  }

  // ---- page-directory entries ----

  /** `table_addr` returns the whole raw word, flag bits included. */
  function PdeTableAddr(e: bv32): bv32 { e }
  predicate PdePresent(e: bv32) { e & 1 != 0 }
  predicate PdeRw(e: bv32) { e & 2 != 0 }
  predicate PdeUs(e: bv32) { e & 4 != 0 }
  predicate PdeHuge(e: bv32) { e & 0x80 != 0 }

  /** `PageDirectoryEntry::new_4kb`: the page-table address keeps its 4 KiB-aligned
      part, the page-size bit is clear and the flags read back exactly. */
  function PdeNew4Kb(ptAddr: bv32, present: bool, rw: bool, us: bool): (e: bv32)
    ensures e & 0xfffff000 == ptAddr & 0xfffff000
    ensures !PdeHuge(e)
    ensures PdePresent(e) == present && PdeRw(e) == rw && PdeUs(e) == us
    ensures e & 0xf78 == 0
  {
    var f := Flags(present, rw, us);
    (ptAddr & (!0 << 12)) | (0 << 7) | f
  }

  /** `PageDirectoryEntry::new_4mb`: the frame address keeps its 4 MiB-aligned
      part, bits 12..21 are clear, the page-size bit is set and the flags read back. */
  function PdeNew4Mb(frameAddr: bv32, present: bool, rw: bool, us: bool): (e: bv32)
    ensures e & 0xffc00000 == frameAddr & 0xffc00000
    ensures e & 0x003ff000 == 0
    ensures PdeHuge(e)
    ensures PdePresent(e) == present && PdeRw(e) == rw && PdeUs(e) == us
    ensures e & 0xf78 == 0
  {
    var f := Flags(present, rw, us);
    (frameAddr & (!0 << 22)) | (1 << 7) | f
  }

  /** `PageDirectoryEntry::empty`: nothing is mapped. */
  function PdeEmpty(): (e: bv32)
    ensures !PdePresent(e) && !PdeRw(e) && !PdeUs(e) && !PdeHuge(e) && PdeTableAddr(e) == 0
  {
    0
  }

  /** Because `table_addr` does not mask the flag bits, it returns the page-table
      address itself only when the entry's flags are all clear; a present entry
      reads back its address plus one. */
  lemma PdeTableAddrCarriesFlags(ptAddr: bv32, present: bool, rw: bool, us: bool)
    requires ptAddr & 0xfff == 0
    ensures PdeTableAddr(PdeNew4Kb(ptAddr, present, rw, us))
         == ptAddr | Flags(present, rw, us)
    ensures PdeTableAddr(PdeNew4Kb(ptAddr, present, rw, us)) == ptAddr <==> !present && !rw && !us
  {
  }
}
