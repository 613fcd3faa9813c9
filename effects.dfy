/** The calls into paging, the console, the scheduler and the CPU that the process,
    fault and system-call code makes. Their implementations are not part of this
    model; a handler is modelled by the sequence of such calls it makes, in order,
    and whether it returns to its caller. */
module Effects {
  import opened Machine
  import opened Context

  datatype Effect =
    | DisablePaging
      /** `paging::enable_paging(pd)` */
    | EnablePaging(pd: nat)
      /** `paging::enable_paging()`, the argument-less form */
    | EnablePagingCurrent
    | InitUserPaging
    | InitArgsPages(args: seq<seq<byte>>)
    | EnableStackPages(pd: nat, addr: u32)
    | EnableUserPages(addr: u32)
    | RegisterHandler(vector: byte, handler: Handler)
      /** text on the kernel console */
    | ConsoleWrite(text: string)
      /** text on the current process's output writer */
    | SinkWrite(text: string)
      /** raw bytes handed to the current process's output writer */
    | SinkWriteBytes(bytes: seq<byte>)
      /** text on the kernel's global framebuffer writer `TBW` */
    | TbwWrite(text: string)
    | KillProcess
      /** `sti` */
    | EnableInterrupts
      /** `loop {}` */
    | SpinForever
    | Panic(message: string)
      /** `jump_to_userspace(entry, stack)`, the two-argument form */
    | JumpToUserspace(entry: nat, stack: nat)
      /** restore a register frame with `pop_ctx` and `iret` into it */
    | ResumeContext(ctx: InterruptContext)
      /** call a handler from a dispatch slot */
    | Invoke(handler: Handler, ctx: InterruptContext)

  /** What a handler does: its calls in order, and whether it returns to its caller (`completes`). */
  datatype Run = Run(effects: seq<Effect>, completes: bool)

  predicate EditsPageTables(e: Effect)
  {
    e.InitUserPaging? || e.InitArgsPages? || e.EnableStackPages? || e.EnableUserPages?
  }

  predicate EnablesPaging(e: Effect)
  {
    e.EnablePaging? || e.EnablePagingCurrent?
  }

  /** Whether paging is on after `e`, given whether it was on before. */
  function PagingAfter(e: Effect, on: bool): bool
  {
    if e == DisablePaging then false else if EnablesPaging(e) then true else on
  }

  /** Every page-table edit in `t` happens while paging is off, starting in state `on`. */
  function EditsWhilePagingOff(t: seq<Effect>, on: bool): bool
    decreases |t|
  {
    t == [] || (!(on && EditsPageTables(t[0])) && EditsWhilePagingOff(t[1..], PagingAfter(t[0], on)))
  }

  /** Whether paging is on after all of `t`, starting in state `on`. */
  function PagingOnAfter(t: seq<Effect>, on: bool): bool
    decreases |t|
  {
    if t == [] then on else PagingOnAfter(t[1..], PagingAfter(t[0], on))
  }

  /** The discipline the paging code demands: page tables are edited only with paging
      off, and a trace that starts with paging on ends with it on again. */
  predicate PagingDiscipline(t: seq<Effect>)
  {
    EditsWhilePagingOff(t, true) && PagingOnAfter(t, true)
  }

  /** Neither edits page tables nor switches paging. */
  predicate Quiet(e: Effect)
  {
    !EditsPageTables(e) && !EnablesPaging(e) && e != DisablePaging
  }

  /** Neither switches paging; page tables may be edited. */
  predicate KeepsPaging(e: Effect)
  {
    !EnablesPaging(e) && e != DisablePaging
  }

  /** The paging state after a concatenation is computed piece by piece, and so is the
      discipline. */
  lemma {:induction false} PagingSplits(a: seq<Effect>, b: seq<Effect>, on: bool)
    ensures PagingOnAfter(a + b, on) == PagingOnAfter(b, PagingOnAfter(a, on))
    ensures EditsWhilePagingOff(a + b, on) == (EditsWhilePagingOff(a, on) && EditsWhilePagingOff(b, PagingOnAfter(a, on)))
    decreases |a|
  {
    if a != [] {
      assert (a + b)[0] == a[0];
      assert (a + b)[1..] == a[1..] + b;
      PagingSplits(a[1..], b, PagingAfter(a[0], on));
    } else {
      assert a + b == b;
    }
  }

  /** Calls that leave paging alone keep its state; if they also edit nothing, any state
      is fine for them, and if paging is off they may edit. */
  lemma {:induction false} KeepingPaging(t: seq<Effect>, on: bool)
    requires forall i :: 0 <= i < |t| ==> KeepsPaging(t[i])
    requires on ==> forall i :: 0 <= i < |t| ==> Quiet(t[i])
    ensures PagingOnAfter(t, on) == on && EditsWhilePagingOff(t, on)
    decreases |t|
  {
    if t != [] {
      assert KeepsPaging(t[0]);
      KeepingPaging(t[1..], on);
    }
  }

  /** The shape every paging-editing routine of the kernel has: calls that leave paging
      alone, then paging off, edits, paging on, and again calls that leave paging alone.
      Such a sequence keeps the discipline. */
  lemma Bracketed(pre: seq<Effect>, edits: seq<Effect>, enable: Effect, post: seq<Effect>)
    requires forall i :: 0 <= i < |pre| ==> Quiet(pre[i])
    requires forall i :: 0 <= i < |edits| ==> KeepsPaging(edits[i])
    requires EnablesPaging(enable)
    requires forall i :: 0 <= i < |post| ==> Quiet(post[i])
    ensures PagingDiscipline(pre + [DisablePaging] + edits + [enable] + post)
  {
    KeepingPaging(pre, true);
    KeepingPaging(edits, false);
    KeepingPaging(post, true);
    PagingSplits(pre, [DisablePaging], true);
    PagingSplits(pre + [DisablePaging], edits, true);
    PagingSplits(pre + [DisablePaging] + edits, [enable], true);
    PagingSplits(pre + [DisablePaging] + edits + [enable], post, true);
  }

  // ---- `{}` formatting of unsigned integers ----

  function Digit(d: nat): (c: char)
    requires d < 10
    ensures '0' <= c <= '9' && c as int - '0' as int == d
  {
    ('0' as int + d) as char
  }

  predicate AllDigits(s: string)
  {
    forall i :: 0 <= i < |s| ==> '0' <= s[i] <= '9'
  }

  /** Decimal rendering without leading zeros, as `{}` prints an unsigned integer. */
  function Decimal(n: nat): (s: string)
    ensures |s| >= 1 && AllDigits(s)
    ensures s[0] == '0' ==> n == 0
    decreases n
  {
    if n < 10 then [Digit(n)] else Decimal(n / 10) + [Digit(n % 10)]
  }

  /** The value of a string of decimal digits. */
  function DecimalValue(s: string): nat
    requires AllDigits(s)
    decreases |s|
  {
    if s == [] then 0 else DecimalValue(s[..|s| - 1]) * 10 + (s[|s| - 1] as int - '0' as int)
  }

  /** Reading a rendered number back gives the number. */
  lemma {:induction false} DecimalRoundTrip(n: nat)
    ensures DecimalValue(Decimal(n)) == n
    decreases n
  {
    var s := Decimal(n);
    if n >= 10 {
      DecimalRoundTrip(n / 10);
      assert s[..|s| - 1] == Decimal(n / 10);
    }
  }

  /** Different numbers print differently. */
  lemma DecimalInjective(m: nat, n: nat)
    requires Decimal(m) == Decimal(n)
    ensures m == n
  {
    DecimalRoundTrip(m);
    DecimalRoundTrip(n);
  }
}
