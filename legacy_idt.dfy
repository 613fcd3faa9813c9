/** The first-generation interrupt table of src/idt.rs: a fixed array of gate descriptors,
    each pointed at a per-vector redirector that calls `interrupt_handler(id)`, which
    panics with the vector number. */
module LegacyIdt {
  import opened Machine
  import Effects

  /** Number of descriptors `Idt` holds: 255, one short of the 256 vectors. */
  const ENTRIES: nat := 255

  datatype InterruptDescriptor = InterruptDescriptor(
    offsetLow: u16, selector: u16, zero: byte, attributes: byte, offsetHigh: u16)

  /** `InterruptDescriptor::default()`. */
  function Blank(): InterruptDescriptor
  {
    InterruptDescriptor(0, 0, 0, 0, 0)
  }

  /** `set_entry(entry)` on descriptor `d`, with `address` the handler's address: the
      two offset halves and the present, ring-0, 32-bit interrupt-gate attribute 0x8e;
      selector and the reserved byte keep their values. */
  function SetEntry(d: InterruptDescriptor, address: u32): (r: InterruptDescriptor)
    ensures r.offsetLow + 0x1_0000 * r.offsetHigh == address
    ensures r.attributes == 0x8e && r.selector == d.selector && r.zero == d.zero
  {
    d.(offsetLow := address % 0x1_0000, offsetHigh := address / 0x1_0000, attributes := 0x8e)
  }

  class Idt {
    const entries: array<InterruptDescriptor>

    /** `Idt::new()`: 255 blank descriptors. */
    constructor ()
      ensures fresh(entries) && entries.Length == ENTRIES
      ensures forall i :: 0 <= i < ENTRIES ==> entries[i] == Blank()
    {
      entries := new InterruptDescriptor[ENTRIES](_ => Blank());
    }

    /** `idt.0[index].set_entry(entry)`; an index of 255 or more is out of bounds, which
        the source reports by panicking. */
    method SetEntryAt(index: nat, address: u32) returns (inBounds: bool)
      modifies entries
      ensures inBounds <==> index < entries.Length
      ensures inBounds ==> entries[..] == old(entries[..])[index := SetEntry(old(entries[index]), address)]
      ensures !inBounds ==> entries[..] == old(entries[..])
    {
      if index >= entries.Length {
        return false;
      }
      entries[index] := SetEntry(entries[index], address);
      inBounds := true;
    }
  }

  /** A descriptor that `set_entry` filled after `new` points at its handler with selector
      0 and reserved byte 0 (the selector is never set), and vector 255 has no descriptor. */
  lemma FreshEntryAfterSet(address: u32)
    ensures var d := SetEntry(Blank(), address);
      d.selector == 0 && d.zero == 0 && d.attributes == 0x8e
      && d.offsetLow + 0x1_0000 * d.offsetHigh == address
    ensures !(255 < ENTRIES)
  {
  }

  /** `interrupt_handler(id)`: it panics for every vector, with the message "IRQ" and
      the vector in decimal. */
  function InterruptHandler(id: byte): (message: string)
  {
    "IRQ" + Effects.Decimal(id)
  }

  /** The panic message names the vector: different vectors panic differently. */
  lemma PanicNamesVector(a: byte, b: byte)
    requires InterruptHandler(a) == InterruptHandler(b)
    ensures a == b
  {
    var m, n := InterruptHandler(a), InterruptHandler(b);
    assert m[3..] == Effects.Decimal(a) && n[3..] == Effects.Decimal(b);
    Effects.DecimalInjective(a, b);
  }
}
