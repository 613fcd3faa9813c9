/** User processes (kernel/src/process/mod.rs): pid allocation from a global counter,
    the start-up sequence that builds the program's address space, and the register frame
    the kernel fabricates to enter ring 3 through `iret`. */
module Process {
  import opened Machine
  import opened Context
  import opened Effects
  import Gdt

  /** The initial user stack pointer. */
  const STACK_START: u32 := 0x80_0000

  /** EFLAGS bits: the always-one bit 1 (`EFlags::new()`), IF, and the two IOPL bits. */
  const EFLAGS_A1: u32 := 0x2
  const EFLAGS_IF: u32 := 0x200
  const EFLAGS_IOPL0: u32 := 0

  datatype ProcessRecord = ProcessRecord(pid: u32, state: byte, entry: u32)

  /** The counter after one `Process::new`: `CUR_MAX_PID += 1` on a u32, which with
      overflow checks panics at the top (None) and otherwise wraps. */
  function NextCounter(counter: u32, overflowChecks: bool): (r: Option<u32>)
    ensures r.None? <==> overflowChecks && counter == WORD - 1
    ensures r.Some? && counter < WORD - 1 ==> r.value == counter + 1
    ensures r.Some? && counter == WORD - 1 ==> r.value == 0
  {
    if counter + 1 < WORD then Some(counter + 1)
    else if overflowChecks then None
    else Some(0)
  }

  /** The pids `n` successive calls hand out, starting from counter value `start`
      (with wrap-around). */
  function PidsFrom(start: u32, n: nat): seq<u32>
    decreases n
  {
    if n == 0 then [] else [start] + PidsFrom(Wrap32(start + 1), n - 1)
  }

  /** As long as the counter does not wrap, successive pids are consecutive, hence
      strictly increasing and pairwise distinct. */
  lemma {:induction false} PidsIncrease(start: u32, n: nat)
    requires start + n <= WORD
    ensures |PidsFrom(start, n)| == n
    ensures forall i :: 0 <= i < n ==> PidsFrom(start, n)[i] == start + i
    decreases n
  {
    if n > 0 {
      PidsIncrease(Wrap32(start + 1), n - 1);
    }
  }

  lemma PidsDistinct(start: u32, n: nat, i: nat, j: nat)
    requires start + n <= WORD && i < j < n
    ensures |PidsFrom(start, n)| == n && PidsFrom(start, n)[i] < PidsFrom(start, n)[j]
  {
    PidsIncrease(start, n);
  }

  /** `CUR_MAX_PID` together with `Process::new`. */
  class PidCounter {
    var curMax: u32

    constructor ()
      ensures curMax == 0
    {
      curMax := 0;
    }

    /** `Process::new(entry)`: the record takes the counter's value as its pid, state 0
        and the entry point; the counter moves on. `None` is the overflow panic. */
    method NewProcess(entry: u32, overflowChecks: bool) returns (p: Option<ProcessRecord>)
      modifies this
      ensures NextCounter(old(curMax), overflowChecks).None? ==> p.None? && curMax == old(curMax)
      ensures NextCounter(old(curMax), overflowChecks).Some? ==>
        p == Some(ProcessRecord(old(curMax), 0, entry)) &&
        curMax == NextCounter(old(curMax), overflowChecks).value
    {
      var res := curMax;
      var next := NextCounter(curMax, overflowChecks);
      if next.None? {
        p := None;
      } else {
        curMax := next.value;
        p := Some(ProcessRecord(res, 0, entry));
      }
    }
  }

  /** The frame `jump_to_userspace` builds for `iret` into the program. */
  function EntryContext(entry: u32, argc: u32, argv: u32, stack: u32): (c: InterruptContext)
    ensures c.eax == argc && c.ecx == argv && c.esp == stack && c.eip == entry
    ensures c.cs == Gdt.USER_CS
    ensures c.ss == Gdt.USER_DS && c.ds == Gdt.USER_DS && c.es == Gdt.USER_DS
    ensures c.fs == Gdt.USER_DS && c.gs == Gdt.USER_DS
    ensures c.edi == 0 && c.esi == 0 && c.ebp == 0 && c.ebx == 0 && c.edx == 0
    ensures c.vector == 0 && c.errcode == 0 && c.cr2 == 0
  {
    var flags := EFLAGS_A1 + EFLAGS_IOPL0 + EFLAGS_IF;
    InterruptContext(
      stack, Gdt.USER_DS,
      0, 0, 0, 0, 0, 0, argv, argc,
      Gdt.USER_DS, Gdt.USER_DS, Gdt.USER_DS, Gdt.USER_DS,
      0, 0,
      entry, Gdt.USER_CS, flags,
      0)
  }

  /** Returning through this frame lands in ring 3: both selectors request privilege 3
      and name the ring-3 code and data descriptors of the kernel's table, interrupts are
      enabled, and the I/O privilege level is 0, so port I/O traps. */
  lemma EntryContextIsRing3(entry: u32, argc: u32, argv: u32, stack: u32)
    ensures var c := EntryContext(entry, argc, argv, stack);
      var gdt := [Gdt.Zero(), Gdt.KernelCode(), Gdt.KernelData(), Gdt.UserCode(), Gdt.UserData(), Gdt.Tss()];
      && Rpl(c.cs) == 3 && Rpl(c.ss) == 3
      && c.cs / 8 < |gdt| && gdt[c.cs / 8] == Gdt.UserCode() && Gdt.Executable(gdt[c.cs / 8])
      && c.ss / 8 < |gdt| && gdt[c.ss / 8] == Gdt.UserData() && !Gdt.Executable(gdt[c.ss / 8])
      && Gdt.Dpl(gdt[c.cs / 8]) == Rpl(c.cs) && Gdt.Dpl(gdt[c.ss / 8]) == Rpl(c.ss)
      && c.eflags / 0x200 % 2 == 1
      && c.eflags / 0x1000 % 4 == 0
      && c.eflags / 2 % 2 == 1
  {
    var gdt := [Gdt.Zero(), Gdt.KernelCode(), Gdt.KernelData(), Gdt.UserCode(), Gdt.UserData(), Gdt.Tss()];
    Gdt.SelectorsMatchTable(gdt);
  }

  /** `Process::run(args)`. `argc` and `argv` are what `init_args_pages` returns. */
  function RunProcess(p: ProcessRecord, args: seq<seq<byte>>, argc: u32, argv: u32): (r: Run)
    ensures !r.completes && |r.effects| == 6
    ensures PagingDiscipline(r.effects)
    ensures r.effects[4] == RegisterHandler(0xe, Named("pagefault_handler"))
    ensures r.effects[5] == ResumeContext(EntryContext(p.entry, argc, argv, STACK_START))
  {
    var edits := [InitUserPaging, InitArgsPages(args)];
    var post := [RegisterHandler(0xe, Named("pagefault_handler")),
                 ResumeContext(EntryContext(p.entry, argc, argv, STACK_START))];
    Bracketed([], edits, EnablePagingCurrent, post);
    assert [] + [DisablePaging] + edits + [EnablePagingCurrent] + post
      == [DisablePaging, InitUserPaging, InitArgsPages(args), EnablePagingCurrent] + post;
    Run([DisablePaging, InitUserPaging, InitArgsPages(args), EnablePagingCurrent] + post, false)
  }
}
