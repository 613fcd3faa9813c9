/** The system-call entry of kernel/src/syscalls.rs: the call number in eax selects the
    call, ebx and ecx carry its arguments, and the result (a signed 32-bit value, the
    error codes negative) is stored back into eax. The keyboard, the process's output
    writer, user memory and the framebuffer globals are parameters. */
module Syscalls {
  import opened Machine
  import opened Context
  import opened Effects
  import Io

  const INVALID_ARGS: int := -1
  const UNKNOWN_SYSCALL: int := -2
  const WRITE_ERROR: int := -3

  const SYS_EXIT: u32 := 1
  const SYS_READ: u32 := 3
  const SYS_WRITE: u32 := 4
  const SYS_FB_ADDR: u32 := 10
  const SYS_FB_WIDTH: u32 := 11
  const SYS_FB_HEIGHT: u32 := 12

  /** What the handler's callees answer: the keyboard driver's `read()` (0 when no key is
      queued), the reply of the process's writer to `write`, user memory by address, and
      the three framebuffer globals. */
  datatype Env = Env(
    keyRead: byte,
    writeReply: Io.IoResult<nat>,
    memory: nat -> byte,
    fbAddr: u32, fbWidth: u32, fbHeight: u32)

  /** `slice::from_raw_parts(ebx, ecx)`: the ecx bytes of user memory from ebx on. */
  function UserBytes(env: Env, ebx: u32, ecx: u32): (r: seq<byte>)
    ensures |r| == ecx
  {
    seq<byte>(ecx, i requires 0 <= i < ecx => env.memory(ebx + i))
  }

  /** `write(buf)`: the writer's count, or WRITE_ERROR. */
  function WriteResult(reply: Io.IoResult<nat>): int
  {
    match reply
    case Ok(count) => count
    case Err(_) => WRITE_ERROR
  }

  /** The `exit` message. */
  function ExitMessage(code: u32): string
  {
    "EXIT WITH CODE " + Decimal(code) + "\n"
  }

  /** `generic_handler(ctx)`: the context afterwards and what the handler does. Every
      result goes through `as i32` and then `as _` into eax, which keeps its low 32 bits. */
  function GenericHandler(ctx: InterruptContext, env: Env): (r: (InterruptContext, Run))
    ensures r.1.completes ==> r.0 == ctx.(eax := r.0.eax)
    ensures !r.1.completes ==> r.0 == ctx
  {
    if ctx.eax == SYS_EXIT then
      (ctx, Run([SinkWrite(ExitMessage(ctx.ebx)), KillProcess, EnableInterrupts, SpinForever], false))
    else if ctx.eax == SYS_READ then
      (ctx.(eax := env.keyRead), Run([], true))
    else if ctx.eax == SYS_WRITE then
      if ctx.ebx == 0 then (ctx.(eax := Wrap32(INVALID_ARGS)), Run([], true))
      else
        (ctx.(eax := Wrap32(WriteResult(env.writeReply))),
         Run([SinkWriteBytes(UserBytes(env, ctx.ebx, ctx.ecx))], true))
    else if ctx.eax == SYS_FB_ADDR then (ctx.(eax := env.fbAddr), Run([], true))
    else if ctx.eax == SYS_FB_WIDTH then (ctx.(eax := env.fbWidth), Run([], true))
    else if ctx.eax == SYS_FB_HEIGHT then (ctx.(eax := env.fbHeight), Run([], true))
    else (ctx.(eax := Wrap32(UNKNOWN_SYSCALL)), Run([], true))
  }

  /** An unknown call number answers −2 in eax and does nothing else; `write` with a null
      buffer answers −1 and neither writes nor kills. */
  lemma ErrorAnswers(ctx: InterruptContext, env: Env)
    ensures !(ctx.eax in {SYS_EXIT, SYS_READ, SYS_WRITE, SYS_FB_ADDR, SYS_FB_WIDTH, SYS_FB_HEIGHT}) ==>
      GenericHandler(ctx, env) == (ctx.(eax := 0xffff_fffe), Run([], true))
    ensures ctx.eax == SYS_WRITE && ctx.ebx == 0 ==>
      GenericHandler(ctx, env) == (ctx.(eax := 0xffff_ffff), Run([], true))
  {
  }

  /** `write` with a buffer hands the ecx bytes at ebx to the process's writer, once, and
      answers its count, or −3 when it fails. */
  lemma WriteCall(ctx: InterruptContext, env: Env)
    requires ctx.eax == SYS_WRITE && ctx.ebx != 0
    ensures var (after, run) := GenericHandler(ctx, env);
      && run == Run([SinkWriteBytes(UserBytes(env, ctx.ebx, ctx.ecx))], true)
      && (env.writeReply.Ok? ==> after.eax == env.writeReply.value % WORD)
      && (env.writeReply.Err? ==> after.eax == 0xffff_fffd)
      && forall i :: 0 <= i < ctx.ecx ==> UserBytes(env, ctx.ebx, ctx.ecx)[i] == env.memory(ctx.ebx + i)
  {
  }

  /** The process's writer is the framebuffer writer, whose `write` always answers the
      whole length (see `TextBuffer.WriteScrollsOnce`): then `write` answers ecx. */
  lemma WriteToFramebuffer(ctx: InterruptContext, env: Env)
    requires ctx.eax == SYS_WRITE && ctx.ebx != 0
    requires env.writeReply == Io.Ok(|UserBytes(env, ctx.ebx, ctx.ecx)|)
    ensures GenericHandler(ctx, env).0.eax == ctx.ecx
  {
  }

  /** `read` answers the keyboard driver's value (0 when no key is queued), and calls 10,
      11 and 12 the framebuffer address, width and height; none of them does anything
      else. */
  lemma QueryAnswers(ctx: InterruptContext, env: Env)
    ensures ctx.eax == SYS_READ ==> GenericHandler(ctx, env) == (ctx.(eax := env.keyRead), Run([], true))
    ensures ctx.eax == SYS_FB_ADDR ==> GenericHandler(ctx, env) == (ctx.(eax := env.fbAddr), Run([], true))
    ensures ctx.eax == SYS_FB_WIDTH ==> GenericHandler(ctx, env) == (ctx.(eax := env.fbWidth), Run([], true))
    ensures ctx.eax == SYS_FB_HEIGHT ==> GenericHandler(ctx, env) == (ctx.(eax := env.fbHeight), Run([], true))
  {
  }

  /** `exit(code)` prints the code in decimal, which reads back as the code, kills the
      process, enables interrupts and spins: it never returns, and eax is untouched. */
  lemma ExitNeverReturns(ctx: InterruptContext, env: Env)
    requires ctx.eax == SYS_EXIT
    ensures var (after, run) := GenericHandler(ctx, env);
      && !run.completes && after == ctx
      && run.effects == [SinkWrite(ExitMessage(ctx.ebx)), KillProcess, EnableInterrupts, SpinForever]
    ensures var m := ExitMessage(ctx.ebx);
      m[..15] == "EXIT WITH CODE " && m[|m| - 1] == '\n' && DecimalValue(m[15..|m| - 1]) == ctx.ebx
  {
    var m := ExitMessage(ctx.ebx);
    assert m[15..|m| - 1] == Decimal(ctx.ebx);
    DecimalRoundTrip(ctx.ebx);
  }
}
