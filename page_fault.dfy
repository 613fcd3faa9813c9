/** The later page-fault policy of kernel/src/process/pagefault.rs. It bands cr2
    differently from kernel/src/process/errors.rs and, instead of calling fixed handlers,
    calls whatever handler sits in one of four registrable slots; the kernel fills those
    slots with closures that print a tag and reload the user program, or grow its stack. */
module PageFault {
  import opened Machine
  import opened Context
  import opened Effects
  import Interrupts
  import ProcessErrors

  /** Where the reloaded program restarts its stack. */
  const USER_STACK: nat := 0x80_0000

  /** The four handler slots a user fault can be routed to. */
  datatype FaultSlots = FaultSlots(npe: Handler, soe: Handler, ub: Handler, stackExpand: Handler)

  const NPE_END: int := 0x7000
  const SOE_START: int := 0x8_0000
  const SOE_END: int := 0x40_2000
  const GUARD_END: int := 0x80_0000

  function Classify(cr2: u32): ProcessErrors.UserErr
  {
    if cr2 < NPE_END then ProcessErrors.NPE
    else if SOE_START <= cr2 < SOE_END then ProcessErrors.SOE
    else if SOE_END <= cr2 < GUARD_END then ProcessErrors.GuardPage
    else ProcessErrors.UB
  }

  /** The bands as a table: the three named bands, and UB for whatever they leave. */
  predicate InBand(cr2: u32, c: ProcessErrors.UserErr)
  {
    match c
    case NPE => cr2 < NPE_END
    case SOE => SOE_START <= cr2 < SOE_END
    case GuardPage => SOE_END <= cr2 < GUARD_END
    case UB => !(cr2 < NPE_END || SOE_START <= cr2 < GUARD_END)
  }

  /** An address is classified `c` exactly when it is in `c`'s band; in particular the
      gap between the null-pointer and stack-overflow bands counts as undefined behaviour. */
  lemma ClassifyIsBand(cr2: u32, c: ProcessErrors.UserErr)
    ensures Classify(cr2) == c <==> InBand(cr2, c)
    ensures NPE_END <= cr2 < SOE_START ==> Classify(cr2) == ProcessErrors.UB
  {
  }

  /** The slot a class is routed to. */
  function SlotFor(slots: FaultSlots, c: ProcessErrors.UserErr): Handler
  {
    match c
    case NPE => slots.npe
    case SOE => slots.soe
    case UB => slots.ub
    case GuardPage => slots.stackExpand
  }

  /** `page_fault_handler`: a kernel-mode fault is the unhandled-interrupt panic; a user
      fault calls the slot of its class with the context. */
  function PageFaultRun(slots: FaultSlots, ctx: InterruptContext): (r: Run)
    ensures ProcessErrors.UsBit(ctx.errcode) ==>
      r.effects == [Invoke(SlotFor(slots, Classify(ctx.cr2)), ctx)] && r.completes
    ensures !ProcessErrors.UsBit(ctx.errcode) ==> !r.completes
  {
    if !ProcessErrors.UsBit(ctx.errcode) then Interrupts.UnhandledPanicRun(ctx)
    else Run([Invoke(SlotFor(slots, Classify(ctx.cr2)), ctx)], true)
  }

  /** Routing calls exactly one slot, and distinct classes use distinct slots. */
  lemma RoutingIsExclusive(slots: FaultSlots, c: ProcessErrors.UserErr, d: ProcessErrors.UserErr)
    requires slots.npe != slots.soe && slots.npe != slots.ub && slots.npe != slots.stackExpand
    requires slots.soe != slots.ub && slots.soe != slots.stackExpand && slots.ub != slots.stackExpand
    ensures SlotFor(slots, c) == SlotFor(slots, d) <==> c == d
  {
  }

  /** `reload_process`: rebuild user paging with paging off, turn paging back on, and
      re-enter the user program on a fresh stack. */
  function ReloadProcess(userMain: nat): (r: seq<Effect>)
    ensures |r| == 4 && PagingDiscipline(r) && r[3] == JumpToUserspace(userMain, USER_STACK)
  {
    var jump := JumpToUserspace(userMain, USER_STACK);
    Bracketed([], [InitUserPaging], EnablePagingCurrent, [jump]);
    assert [] + [DisablePaging] + [InitUserPaging] + [EnablePagingCurrent] + [jump]
      == [DisablePaging, InitUserPaging, EnablePagingCurrent, jump];
    [DisablePaging, InitUserPaging, EnablePagingCurrent, JumpToUserspace(userMain, USER_STACK)]
  }

  /** The NPE, SOE and UB closures: print the tag on the kernel's `TBW` writer, then
      reload the program; they never return to the faulting code. */
  function TagClosureRun(tag: string, userMain: nat): (r: Run)
    ensures !r.completes && |r.effects| == 5 && r.effects[0] == TbwWrite(tag + "\n")
    ensures PagingDiscipline(r.effects)
  {
    var jump := JumpToUserspace(userMain, USER_STACK);
    Bracketed([TbwWrite(tag + "\n")], [InitUserPaging], EnablePagingCurrent, [jump]);
    assert [TbwWrite(tag + "\n")] + [DisablePaging] + [InitUserPaging] + [EnablePagingCurrent] + [jump]
      == [TbwWrite(tag + "\n")] + ReloadProcess(userMain);
    Run([TbwWrite(tag + "\n")] + ReloadProcess(userMain), false)
  }

  /** The stack-expand closure: map the page for cr2 with paging off, print the address
      on the kernel's `TBW` writer, turn paging back on and return. */
  function StackExpandClosureRun(cr2: u32): (r: Run)
    ensures r.completes && PagingDiscipline(r.effects) && EnableUserPages(cr2) in r.effects
    ensures TbwWrite(Decimal(cr2) + "\n") in r.effects
  {
    var edits := [EnableUserPages(cr2), TbwWrite(Decimal(cr2) + "\n")];
    Bracketed([], edits, EnablePagingCurrent, []);
    assert [] + [DisablePaging] + edits + [EnablePagingCurrent] + []
      == [DisablePaging, EnableUserPages(cr2), TbwWrite(Decimal(cr2) + "\n"), EnablePagingCurrent];
    Run([DisablePaging, EnableUserPages(cr2), TbwWrite(Decimal(cr2) + "\n"), EnablePagingCurrent], true)
  }
}
