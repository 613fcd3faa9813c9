/** The kernel's interrupt descriptor table and handler dispatch (kernel/src/interrupts.rs).
    Every vector gets an eight-byte trampoline on the heap, `push imm8 <vector>;
    jmp rel32 <collector>`, and a 32-bit interrupt gate pointing at it; the collector
    saves the registers and calls `global_handler`, which forwards the saved frame to
    the handler registered for its vector. */
module Interrupts {
  import opened Machine
  import opened Context
  import opened Effects

  const VECTORS: nat := 256
  const KERNEL_CODE_SELECTOR: u16 := 8
  const INTERRUPT_GATE: byte := 0x8e
  const USER_INTERRUPT_GATE: byte := 0xee

  // ---- which exceptions push an error code ----

  /** `has_errcode`: the vectors whose frame already carries an error code. */
  function HasErrcode(vector: byte): bool
  {
    vector == 0x8 || vector == 0xa || vector == 0xb || vector == 0xc || vector == 0xd
    || vector == 0xe || vector == 0x11 || vector == 0x15 || vector == 0x1d || vector == 0x1e
  }

  /** The architecture's exceptions by mnemonic, as the Intel 64 and IA-32 manuals
      (Volume 3A, section 6.3.1, Table 6-1) list them. */
  datatype Exception =
    | DE | DB | NMI | BP | OF | BR | UD | NM | DF | CoprocessorOverrun | TS | NP | SS | GP
    | PF | MF | AC | MC | XM | VE | CP | HV | VC | SX

  /** The exception a vector below 32 stands for; reserved vectors have none. */
  function ExceptionOf(v: byte): Option<Exception>
  {
    match v
    case 0 => Some(DE) case 1 => Some(DB) case 2 => Some(NMI) case 3 => Some(BP)
    case 4 => Some(OF) case 5 => Some(BR) case 6 => Some(UD) case 7 => Some(NM)
    case 8 => Some(DF) case 9 => Some(CoprocessorOverrun) case 10 => Some(TS)
    case 11 => Some(NP) case 12 => Some(SS) case 13 => Some(GP) case 14 => Some(PF)
    case 16 => Some(MF) case 17 => Some(AC) case 18 => Some(MC) case 19 => Some(XM)
    case 20 => Some(VE) case 21 => Some(CP) case 28 => Some(HV) case 29 => Some(VC)
    case 30 => Some(SX)
    case _ => None
  }

  /** The error-code column of that table. */
  predicate PushesErrorCode(e: Exception)
  {
    e.DF? || e.TS? || e.NP? || e.SS? || e.GP? || e.PF? || e.AC? || e.CP? || e.VC? || e.SX?
  }

  /** `has_errcode` picks exactly the exceptions for which the processor pushes an
      error code, so every frame the collector sees has the same shape. */
  lemma HasErrcodeMatchesArchitecture(v: byte)
    ensures HasErrcode(v) <==> ExceptionOf(v).Some? && PushesErrorCode(ExceptionOf(v).value)
  {
  }

  // ---- gate descriptors ----

  datatype InterruptDescriptor = InterruptDescriptor(offset0: u16, selector: u16, zero: byte, flags: byte, offset1: u16)

  /** The handler address a descriptor points at. */
  function Offset(d: InterruptDescriptor): int
  {
    d.offset1 * HALF + d.offset0
  }

  /** Present bit (7), privilege level (bits 5-6) and gate type (bits 0-3) of a
      descriptor's flags byte. */
  predicate GatePresent(flags: byte) { flags / 0x80 == 1 }
  function GateDpl(flags: byte): int { flags / 0x20 % 4 }
  function GateType(flags: byte): int { flags % 0x10 }

  /** `InterruptDescriptor::new`: a present, ring-0, 32-bit interrupt gate (type 0xe)
      in the kernel code segment whose offset is the whole address. */
  function DescriptorNew(offset: u32): (d: InterruptDescriptor)
    ensures Offset(d) == offset
    ensures d.selector == KERNEL_CODE_SELECTOR && d.zero == 0
    ensures GatePresent(d.flags) && GateDpl(d.flags) == 0 && GateType(d.flags) == 0xe
  {
    InterruptDescriptor(offset % HALF, 8, 0, 0x8e, offset / HALF % HALF)
  }

  // ---- trampolines ----

  /** The collector a vector's trampoline jumps to: the one that pushes a dummy error
      code, unless the CPU already pushed one. */
  function CollectorFor(hasErrcode: bool, collectCtx: u32, collectCtxPush: u32): u32
  {
    if hasErrcode then collectCtx else collectCtxPush
  }

  /** The eight trampoline bytes for `vector`: `push imm8 <vector>`, then `jmp rel32`
      with the given displacement, then one zero byte of padding. */
  function Trampoline(vector: byte, displacement: u32): (t: seq<byte>)
    ensures |t| == 8
  {
    [0x6a, vector, 0xe9] + LeBytes(displacement) + [0]
  }

  /** Decoding a trampoline gives back the vector it pushes and the displacement of its jump. */
  lemma TrampolineDecodes(vector: byte, displacement: u32)
    ensures var t := Trampoline(vector, displacement);
      t[0] == 0x6a && t[1] == vector && t[2] == 0xe9 && FromLeBytes(t[3..7]) == displacement
  {
    var t := Trampoline(vector, displacement);
    assert t[3..7] == LeBytes(displacement);
    LeBytesRoundTrip(displacement);
  }

  /** A `jmp rel32` ending at `next` with displacement `target - next` lands on `target`
      in 32-bit wrap-around arithmetic; `Idt::new` measures from `next = trampoline + 7`. */
  lemma RelativeJumpLands(next: u32, target: u32)
    ensures Wrap32(next + Wrap32(target - next)) == target
  {
  }

  /** Fill a fresh zeroed eight-byte box placed at `at` with the trampoline for `vector`,
      as the closure inside `Idt::new` does: its jump displacement is measured from the
      end of the seven code bytes to the collector. */
  method BuildTrampoline(vector: byte, at: u32, collectCtx: u32, collectCtxPush: u32) returns (t: array<byte>)
    ensures fresh(t)
    ensures t[..] == Trampoline(vector, Wrap32(CollectorFor(HasErrcode(vector), collectCtx, collectCtxPush) - (at + 7)))
  {
    t := new byte[8](_ => 0);
    t[0] := 0x6a;
    t[1] := vector;
    var ctxFn := if !HasErrcode(vector) then collectCtxPush else collectCtx;
    // the isize difference, as its four little-endian bytes
    var offset := Wrap32(ctxFn - at - 7);
    t[2] := 0xe9;
    var bytes := LeBytes(offset);
    t[3], t[4], t[5], t[6] := bytes[0], bytes[1], bytes[2], bytes[3];
    assert t[..] == [0x6a, vector, 0xe9] + bytes + [0];
  }

  /** The table of gates and its `lidt` descriptor. The boxed trampolines are kept
      here by content; `trampolineAt[v]` is the address the allocator gave vector v's box. */
  class Idt {
    var table: array<InterruptDescriptor>
    var descSize: u16
    var descOffset: u32
    var trampolines: seq<seq<byte>>

    /** `Idt::new`, with the addresses of the allocated boxes as a parameter. */
    constructor (trampolineAt: seq<u32>, collectCtx: u32, collectCtxPush: u32)
      requires |trampolineAt| == VECTORS
      ensures fresh(table) && table.Length == VECTORS && |trampolines| == VECTORS
      ensures forall v :: 0 <= v < VECTORS ==> table[v] == DescriptorNew(trampolineAt[v])
      ensures forall v :: 0 <= v < VECTORS ==>
        trampolines[v] == Trampoline(v, Wrap32(CollectorFor(HasErrcode(v), collectCtx, collectCtxPush) - (trampolineAt[v] as int + 7)))
      ensures descSize == 2047 && descOffset == 0
    {
      var t := new InterruptDescriptor[VECTORS](_ => DescriptorNew(0));
      var boxes: seq<seq<byte>> := [];
      var v := 0;
      while v < VECTORS
        invariant 0 <= v <= VECTORS && |boxes| == v
        invariant forall u :: 0 <= u < v ==> t[u] == DescriptorNew(trampolineAt[u])
        invariant forall u :: 0 <= u < v ==>
          boxes[u] == Trampoline(u, Wrap32(CollectorFor(HasErrcode(u), collectCtx, collectCtxPush) - (trampolineAt[u] as int + 7)))
      {
        var box := BuildTrampoline(v, trampolineAt[v], collectCtx, collectCtxPush);
        boxes := boxes + [box[..]];
        t[v] := DescriptorNew(trampolineAt[v]);
        v := v + 1;
      }
      table := t;
      trampolines := boxes;
      // size_of::<[InterruptDescriptor; 256]>() - 1
      descSize := VECTORS * 8 - 1;
      descOffset := 0;
    }

    /** `switch_to_interrupt`: make gate `code` a ring-0 interrupt gate. An index past
      the table panics (`ok` is false) and changes nothing. */
    method SwitchToInterrupt(code: nat) returns (ok: bool)
      requires table.Length == VECTORS
      modifies table
      ensures ok == (code < VECTORS)
      ensures ok ==> table[..] == old(table[..])[code := old(table[code]).(flags := INTERRUPT_GATE)]
      ensures !ok ==> table[..] == old(table[..])
    {
      ok := code < table.Length;
      if ok {
        table[code] := table[code].(flags := 0x8e);
      }
    }

    /** `mark_syscall`: make gate `code` callable from ring 3 with `int`. */
    method MarkSyscall(code: nat) returns (ok: bool)
      requires table.Length == VECTORS
      modifies table
      ensures ok == (code < VECTORS)
      ensures ok ==> table[..] == old(table[..])[code := old(table[code]).(flags := USER_INTERRUPT_GATE)]
      ensures !ok ==> table[..] == old(table[..])
    {
      ok := code < table.Length;
      if ok {
        table[code] := table[code].(flags := 0xee);
      }
    }
  }

  /** Marking a fresh gate as a system-call gate keeps its target, selector and gate type
      and only lowers the privilege needed to reach it to ring 3. */
  lemma MarkSyscallOpensRing3(offset: u32)
    ensures var d := DescriptorNew(offset).(flags := USER_INTERRUPT_GATE);
      Offset(d) == offset && d.selector == KERNEL_CODE_SELECTOR &&
      GatePresent(d.flags) && GateType(d.flags) == 0xe && GateDpl(d.flags) == 3
  {
  }

  // ---- dispatch ----

  /** The 256 handler slots (`HANDLERS`). */
  class HandlerTable {
    var slots: array<Handler>

    constructor ()
      ensures fresh(slots) && slots.Length == VECTORS
      ensures forall v :: 0 <= v < VECTORS ==> slots[v] == UnhandledPanic
    {
      slots := new Handler[VECTORS](_ => UnhandledPanic);
    }

    /** `register_handler`: the slot for `index` now holds `handler`; no other slot changes. */
    method RegisterHandler(index: byte, handler: Handler)
      requires slots.Length == VECTORS
      modifies slots
      ensures slots[..] == old(slots[..])[index := handler]
    {
      slots[index] := handler;
    }

    /** `global_handler`: a null frame pointer panics; otherwise the handler in the
      slot named by the frame's own vector runs on that frame. */
    function GlobalHandler(ctx: Option<InterruptContext>): (r: Run)
      requires slots.Length == VECTORS
      reads this, slots
      ensures ctx.None? ==> !r.completes && |r.effects| == 1 && r.effects[0].Panic?
      ensures ctx.Some? ==> |r.effects| >= 1 && r.effects[0] == Invoke(slots[ctx.value.vector], ctx.value)
      ensures ctx.Some? && slots[ctx.value.vector] == UnhandledPanic ==> !r.completes
    {
      match ctx
      case None => Run([Panic("Invalid context passed to global interrupt handler")], false)
      case Some(c) =>
        var h := slots[c.vector];
        Run([Invoke(h, c)] + HandlerRun(h, c).effects, HandlerRun(h, c).completes)
    }
  }

  /** What a slot's handler does, where this model knows it. */
  function HandlerRun(h: Handler, ctx: InterruptContext): Run
  {
    match h
    case UnhandledPanic => UnhandledPanicRun(ctx)
    case Named(_) => Run([], true)
  }

  /** `unhandled_panic`: print the vector on the console, then panic. */
  function UnhandledPanicRun(ctx: InterruptContext): (r: Run)
    ensures !r.completes && |r.effects| == 2
    ensures r.effects[0] == ConsoleWrite(Decimal(ctx.vector) + "\n")
  {
    Run([ConsoleWrite(Decimal(ctx.vector) + "\n"), Panic("unhandled interrupt")], false)
  }

  /** A vector nobody registered a handler for brings the kernel down. */
  lemma UnregisteredVectorPanics(slots: seq<Handler>, ctx: InterruptContext)
    requires |slots| == VECTORS && slots[ctx.vector] == UnhandledPanic
    ensures !HandlerRun(slots[ctx.vector], ctx).completes
  {
  }
}
