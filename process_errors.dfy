/** The process page-fault policy of kernel/src/process/errors.rs: a fault raised in
    kernel mode is an unhandled interrupt; a user-mode fault is classified by the faulting
    address (cr2) into a null-pointer access, a stack overflow, a guard-page touch (the
    stack grows) or undefined behaviour, and all but the guard page kill the process. */
module ProcessErrors {
  import opened Machine
  import opened Context
  import opened Effects
  import Interrupts

  datatype UserErr = NPE | SOE | UB | GuardPage

  /** Bit 2 of a page-fault error code: the access came from user mode. */
  predicate UsBit(errcode: u32)
  {
    errcode / 4 % 2 == 1
  }

  /** Band bounds, as half-open ranges of cr2. */
  const NPE_END: int := 0x20_0000
  const SOE_END: int := 0x40_0000
  const GUARD_END: int := 0x80_0000

  /** The classification `match ctx.cr2`. */
  function Classify(cr2: u32): UserErr
  {
    if cr2 < NPE_END then NPE
    else if cr2 < SOE_END then SOE
    else if cr2 < GUARD_END then GuardPage
    else UB
  }

  /** The band each class stands for: [lo, hi) of u32 addresses. */
  function BandLo(c: UserErr): int
  {
    match c
    case NPE => 0
    case SOE => NPE_END
    case GuardPage => SOE_END
    case UB => GUARD_END
  }

  function BandHi(c: UserErr): int
  {
    match c
    case NPE => NPE_END
    case SOE => SOE_END
    case GuardPage => GUARD_END
    case UB => WORD
  }

  /** Classification agrees with the bands: an address gets class `c` exactly when it
      lies in `c`'s band. Since every address gets some class, the four bands are
      disjoint and together cover all of u32. */
  lemma ClassifyIsBand(cr2: u32, c: UserErr)
    ensures Classify(cr2) == c <==> BandLo(c) <= cr2 < BandHi(c)
  {
  }

  /** The tag the killing handlers print. */
  function Tag(c: UserErr): string
  {
    match c
    case NPE => "NPE"
    case SOE => "SOE"
    case UB => "UB"
    case GuardPage => ""
  }

  /** `npe_handler`, `soe_handler`, `ub_handler`: tag on the process's writer, kill, enable
      interrupts, spin. */
  function KillRun(tag: string): (r: Run)
    ensures !r.completes && KillProcess in r.effects && r.effects[0] == SinkWrite(tag + "\n")
    ensures r.effects[|r.effects| - 1] == SpinForever
  {
    Run([SinkWrite(tag + "\n"), KillProcess, EnableInterrupts, SpinForever], false)
  }

  /** `stack_expand_handler`: map stack pages for cr2 in the process's page directory
      `pd`, with paging off, and return to the faulting instruction. */
  function StackExpandRun(pd: nat, cr2: u32): (r: Run)
    ensures r.completes && PagingDiscipline(r.effects)
    ensures EnableStackPages(pd, cr2) in r.effects
  {
    Bracketed([], [EnableStackPages(pd, cr2)], EnablePaging(pd), []);
    assert [] + [DisablePaging] + [EnableStackPages(pd, cr2)] + [EnablePaging(pd)] + []
      == [DisablePaging, EnableStackPages(pd, cr2), EnablePaging(pd)];
    Run([DisablePaging, EnableStackPages(pd, cr2), EnablePaging(pd)], true)
  }

  /** `pagefault_handler`. `pd` is the current process's page directory; with
      `debugAssertions` the U/S bit is checked against the privilege of the saved cs. */
  function PageFaultRun(ctx: InterruptContext, pd: nat, debugAssertions: bool): Run
  {
    var us := UsBit(ctx.errcode);
    if debugAssertions && us != (ctx.cs % 4 != 0) then
      Run([Panic("assertion failed: us_bit == (ctx.cs & 0b11 != 0)")], false)
    else if !us then
      Interrupts.UnhandledPanicRun(ctx)
    else
      match Classify(ctx.cr2)
      case GuardPage => StackExpandRun(pd, ctx.cr2)
      case c => KillRun(Tag(c))
  }

  /** The handler returns to the faulting program exactly for a user-mode fault in the
      guard band, and then it has mapped the page for cr2 with paging off and left paging
      on. A kernel-mode fault goes to the unhandled-interrupt panic; every other user
      fault prints its tag and kills the process. */
  lemma PageFaultOutcome(ctx: InterruptContext, pd: nat, debugAssertions: bool)
    requires !debugAssertions || (UsBit(ctx.errcode) <==> ctx.cs % 4 != 0)
    ensures var r := PageFaultRun(ctx, pd, debugAssertions);
      && (r.completes <==> UsBit(ctx.errcode) && SOE_END <= ctx.cr2 < GUARD_END)
      && (!UsBit(ctx.errcode) ==> r == Interrupts.UnhandledPanicRun(ctx))
      && (r.completes ==> PagingDiscipline(r.effects) && EnableStackPages(pd, ctx.cr2) in r.effects)
      && (UsBit(ctx.errcode) && !r.completes ==>
            r.effects[0] == SinkWrite(Tag(Classify(ctx.cr2)) + "\n") && KillProcess in r.effects)
  {
    if UsBit(ctx.errcode) {
      ClassifyIsBand(ctx.cr2, GuardPage);
    }
  }

  /** With debug assertions, a fault whose U/S bit disagrees with the saved code
      segment's privilege stops at the assertion. */
  lemma MismatchedPrivilegeAsserts(ctx: InterruptContext, pd: nat)
    requires UsBit(ctx.errcode) != (ctx.cs % 4 != 0)
    ensures !PageFaultRun(ctx, pd, true).completes
    ensures PageFaultRun(ctx, pd, true).effects[0].Panic?
  {
  }
}
