/** The saved register frame every kernel interrupt handler receives
    (`InterruptContext`, in the layout kernel/src/process/mod.rs:50-71 fills in),
    and the handler values the kernel stores in its dispatch table. */
module Context {
  import opened Machine

  datatype InterruptContext = InterruptContext(
    esp: u32, ss: u16,
    edi: u32, esi: u32, ebp: u32, fill: u32, ebx: u32, edx: u32, ecx: u32, eax: u32,
    gs: u16, fs: u16, es: u16, ds: u16,
    vector: byte, errcode: u32,
    eip: u32, cs: u16, eflags: u32,
    cr2: u32)

  /** A `fn(&mut InterruptContext)` stored in the dispatch table: the built-in panic
      handler, or a handler some other component registered under its name. */
  datatype Handler = UnhandledPanic | Named(name: string)

  /** The privilege level a selector requests: its low two bits. */
  function Rpl(selector: u16): int { selector % 4 }
}
