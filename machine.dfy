/** Machine-level vocabulary shared by every module of the model: optional values,
    the unsigned integer types of a 32-bit x86 kernel (as ranges of `int`; wrap-around
    is written out where the source relies on it), little-endian byte order, and the
    interrupt flag (IF) of EFLAGS. */
module Machine {

  datatype Option<T> = None | Some(value: T)

  const BYTE: int := 0x100
  const HALF: int := 0x1_0000
  const WORD: int := 0x1_0000_0000

  type byte = x: int | 0 <= x < BYTE
  type u16 = x: int | 0 <= x < HALF
  type u32 = x: int | 0 <= x < WORD

  /** Wrap-around (`wrapping_*`, or a truncating `as u32`) onto 32 bits. */
  function Wrap32(x: int): u32 { x % WORD }

  /** Bit `k` of `x`. */
  predicate BitSet(x: nat, k: nat)
  {
    x / Pow2(k) % 2 == 1
  }

  function Pow2(k: nat): (p: nat)
    ensures p >= 1
  {
    if k == 0 then 1 else 2 * Pow2(k - 1)
  }

  /** The byte `k` (0 = least significant) of a 32-bit word. */
  function ByteOf(w: u32, k: nat): byte
    requires k < 4
  {
    if k == 0 then w % 0x100
    else if k == 1 then w / 0x100 % 0x100
    else if k == 2 then w / 0x10000 % 0x100
    else w / 0x1000000
  }

  /** `to_le_bytes` of a 32-bit word. */
  function LeBytes(w: u32): (r: seq<byte>)
    ensures |r| == 4
    ensures forall k :: 0 <= k < 4 ==> r[k] == ByteOf(w, k)
  {
    [ByteOf(w, 0), ByteOf(w, 1), ByteOf(w, 2), ByteOf(w, 3)]
  }

  /** `from_le_bytes` of four bytes. */
  function FromLeBytes(b: seq<byte>): u32
    requires |b| == 4
  {
    b[0] as int + 0x100 * (b[1] as int) + 0x10000 * (b[2] as int) + 0x1000000 * (b[3] as int)
  }

  /** Reading back the little-endian bytes of a word gives the word. */
  lemma LeBytesRoundTrip(w: u32)
    ensures FromLeBytes(LeBytes(w)) == w
  {
    var r1, r2, r3 := w / 0x100, w / 0x10000, w / 0x1000000;
    assert r1 / 0x100 == r2 && r2 / 0x100 == r3;
    assert w == w % 0x100 + 0x100 * r1;
    assert r1 == r1 % 0x100 + 0x100 * r2;
    assert r2 == r2 % 0x100 + 0x100 * r3;
  }

  /** Two words with the same little-endian bytes are equal. */
  lemma LeBytesInjective(a: u32, b: u32)
    requires LeBytes(a) == LeBytes(b)
    ensures a == b
  {
    LeBytesRoundTrip(a);
    LeBytesRoundTrip(b);
  }

  /** The IF bit of EFLAGS: the part of CPU state that `cli`, `sti` and the
      interrupt-safe guards read and write. */
  class InterruptFlag {
    var enabled: bool

    constructor (enabled: bool)
      ensures this.enabled == enabled
    {
      this.enabled := enabled;
    }

    /** `cli` */
    method Cli()
      modifies this
      ensures !enabled
    {
      enabled := false;
    }

    /** `sti` */
    method Sti()
      modifies this
      ensures enabled
    {
      enabled := true;
    }
  }
}
