/** The CPU vendor string of src/cpuid.rs: `cpuid` leaf 0 returns twelve ASCII bytes in
    ebx, edx and ecx (in that order, each little-endian), which `Cpuid` reads once and
    caches. The register values `cpuid` would return are parameters here. */
module Cpuid {
  import opened Machine

  const VENDOR_LEN: nat := 12

  /** `regs.iter().flat_map(to_le_bytes)` over `[ebx, edx, ecx]`. */
  function VendorBytes(ebx: u32, edx: u32, ecx: u32): (r: seq<byte>)
    ensures |r| == VENDOR_LEN
  {
    LeBytes(ebx) + LeBytes(edx) + LeBytes(ecx)
  }

  /** The register that byte `i` of the vendor string comes from: 0 ebx, 1 edx, 2 ecx. */
  function Reg(ebx: u32, edx: u32, ecx: u32, k: nat): u32
    requires k < 3
  {
    [ebx, edx, ecx][k]
  }

  /** Byte 4k + j of the vendor string is byte j of register k, and each register reads
      back from its four bytes, so the string determines the registers. */
  lemma VendorLayout(ebx: u32, edx: u32, ecx: u32, k: nat, j: nat)
    requires k < 3 && j < 4
    ensures VendorBytes(ebx, edx, ecx)[4 * k + j] == ByteOf(Reg(ebx, edx, ecx, k), j)
    ensures FromLeBytes(VendorBytes(ebx, edx, ecx)[4 * k .. 4 * k + 4]) == Reg(ebx, edx, ecx, k)
  {
    var v := VendorBytes(ebx, edx, ecx);
    var r := Reg(ebx, edx, ecx, k);
    assert v[4 * k .. 4 * k + 4] == LeBytes(r);
    LeBytesRoundTrip(r);
  }

  class Cpuid {
    var vendor: Option<seq<byte>>

    predicate Valid()
      reads this
    {
      vendor.Some? ==> |vendor.value| == VENDOR_LEN
    }

    /** `Cpuid::default()`: nothing cached. */
    constructor ()
      ensures Valid() && vendor.None?
    {
      vendor := None;
    }

    /** `read_vendor`, given what `cpuid` leaf 0 puts in ebx, edx and ecx: the bytes are
        stored one by one into the fresh twelve-byte cache. */
    method ReadVendor(ebx: u32, edx: u32, ecx: u32) returns (v: seq<byte>)
      modifies this
      ensures Valid()
      ensures v == VendorBytes(ebx, edx, ecx) && vendor == Some(v)
    {
      var arr := new byte[VENDOR_LEN](_ => 0);
      var regs := [ebx, edx, ecx];
      var i := 0;
      while i < VENDOR_LEN
        invariant 0 <= i <= VENDOR_LEN
        invariant arr[..i] == VendorBytes(ebx, edx, ecx)[..i]
      {
        arr[i] := ByteOf(regs[i / 4], i % 4);
        i := i + 1;
      }
      v := arr[..];
      vendor := Some(v);
    }

    /** `get_vendor`: the cached string when there is one (then `cpuid` is not executed
        and the registers passed in are ignored), else the string freshly read. */
    method GetVendor(ebx: u32, edx: u32, ecx: u32) returns (v: seq<byte>)
      requires Valid()
      modifies this
      ensures Valid() && |v| == VENDOR_LEN
      ensures old(vendor).Some? ==> v == old(vendor).value && vendor == old(vendor)
      ensures old(vendor).None? ==> v == VendorBytes(ebx, edx, ecx) && vendor == Some(v)
    {
      if vendor.Some? {
        v := vendor.value;
      } else {
        v := ReadVendor(ebx, edx, ecx);
      }
    }
  }
}
