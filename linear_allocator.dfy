/** The global heap of src/allocator.rs: a bump allocator over the 100 MiB arena that
    starts at 1 MiB. Each allocation aligns the cursor up to the requested alignment,
    hands out the block there and moves the cursor past it; nothing is ever freed. The
    state sits behind an `IrqSafe` guard, taken at the start of `alloc` and dropped at
    its end. */
module LinearAllocator {
  import opened Machine
  import Irq

  const ARENA_SIZE: nat := 100 * 1024 * 1024
  const ARENA_START: nat := 0x10_0000
  const ARENA_END: nat := ARENA_START + ARENA_SIZE

  /** A `Layout`: its alignment is a power of two, and so positive. */
  datatype Layout = Layout(size: nat, align: nat)

  predicate PowerOfTwo(n: nat)
    decreases n
  {
    n == 1 || (n >= 2 && n % 2 == 0 && PowerOfTwo(n / 2))
  }

  lemma PowerOfTwoPositive(n: nat)
    requires PowerOfTwo(n)
    ensures n > 0
  {
  }

  /** `p.align_offset(align)`: how far `p` is from the next multiple of `align`. */
  function AlignOffset(p: nat, align: nat): (k: nat)
    requires align > 0
    ensures k < align && (p + k) % align == 0
  {
    var r := p % align;
    if r == 0 then 0 else
      assert p + (align - r) == (p / align + 1) * align;
      ModUnique(p + (align - r), align, p / align + 1, 0);
      align - r
  }

  /** The remainder is the one `r` in [0, a) with x == q * a + r. */
  lemma ModUnique(x: int, a: int, q: int, r: int)
    requires a > 0 && x == q * a + r && 0 <= r < a
    ensures x % a == r
  {
    var d := x / a - q;
    assert d * a == r - x % a;
  }

  datatype AllocResult = Block(ptr: nat) | Panicked(message: string)

  /** The work `alloc` does while it holds the guard: the new cursor and the block, or
      the assertion that stopped it (with the cursor as it then was). */
  function Bump(current: nat, end: nat, layout: Layout): (r: (nat, AllocResult))
    requires PowerOfTwo(layout.align)
  {
    PowerOfTwoPositive(layout.align);
    if !(current < end) then (current, Panicked("assertion failed: state.current < state.end"))
    else
      var start: nat := current + AlignOffset(current, layout.align);
      var next: nat := start + layout.size;
      if !(next < end) then (next, Panicked("assertion failed: state.current < state.end"))
      else (next, Block(start))
  }

  /** A block is aligned as requested, starts at or past the old cursor, ends strictly
      before the arena end, and the cursor moves to its end. */
  lemma BumpBlock(current: nat, end: nat, layout: Layout)
    requires PowerOfTwo(layout.align)
    requires Bump(current, end, layout).1.Block?
    ensures var (next, r) := Bump(current, end, layout);
      && r.ptr % layout.align == 0
      && current <= r.ptr < current + layout.align
      && next == r.ptr + layout.size && next < end
  {
    PowerOfTwoPositive(layout.align);
  }

  /** The cursor never moves back; the block that follows a block starts past its end,
      so blocks never overlap, and from the arena start every block lies in the arena. */
  lemma SuccessiveBlocks(current: nat, end: nat, a: Layout, b: Layout)
    requires PowerOfTwo(a.align) && PowerOfTwo(b.align)
    requires ARENA_START <= current && end == ARENA_END
    requires Bump(current, end, a).1.Block?
    ensures var (mid, ra) := Bump(current, end, a);
      && current <= mid
      && ARENA_START <= ra.ptr && ra.ptr + a.size < ARENA_END
      && (Bump(mid, end, b).1.Block? ==> ra.ptr + a.size <= Bump(mid, end, b).1.ptr)
  {
  }

  class Allocator {
    var current: nat
    var end: nat
    const inner: Irq.IrqSafe

    /** The `GLOBAL` instance: the cursor at the arena start, the guard free. */
    constructor (cpu: InterruptFlag)
      ensures current == ARENA_START && end == ARENA_END && fresh(inner)
      ensures inner.lockCount == 0 && !inner.savedFlag && inner.cpu == cpu
    {
      current, end := ARENA_START, ARENA_END;
      inner := new Irq.IrqSafe(cpu);
    }

    /** `alloc`. With the guard free, dropping it at the end panics (see `Irq.Unlock`),
        so every call that gets past both assertions still panics instead of returning
        its block; a call stopped by an assertion panics with the guard held. */
    method Alloc(layout: Layout) returns (r: AllocResult)
      requires PowerOfTwo(layout.align)
      modifies this, inner, inner.cpu
      ensures end == old(end) && current == Bump(old(current), old(end), layout).0
      ensures var b := Bump(old(current), old(end), layout).1;
        && (b.Panicked? ==> r == b && inner.State() == Irq.Lock(old(inner.State())))
        && (b.Block? ==> (inner.State() == Irq.Unlock(Irq.Lock(old(inner.State()))).0
              && r == (if Irq.Unlock(Irq.Lock(old(inner.State()))).1 then Panicked("IrqSafe: unlock without lock") else b)))
      ensures old(inner.lockCount) == 0 ==> r.Panicked?
    {
      PowerOfTwoPositive(layout.align);
      inner.LockNow();
      if !(current < end) {
        return Panicked("assertion failed: state.current < state.end");
      }
      current := current + AlignOffset(current, layout.align);
      var start := current;
      current := current + layout.size;
      if !(current < end) {
        return Panicked("assertion failed: state.current < state.end");
      }
      var panicked := inner.DropGuard();
      r := if panicked then Panicked("IrqSafe: unlock without lock") else Block(start);
    }

    /** `dealloc`: nothing. */
    method Dealloc(ptr: nat, layout: Layout)
      ensures unchanged(this)
    {
    }
  }
}
