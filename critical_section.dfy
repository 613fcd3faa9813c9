/** `critical_section::wrap` (kernel/src/critical_section.rs): run a closure with
    interrupts masked, and unmask them afterwards only if they were enabled on entry.
    The closure is modelled by what it does to IF: `f(b)` is IF after it ran with IF = b. */
module CriticalSection {
  import opened Machine

  /** What happens to IF during `wrap`, in order. */
  datatype Step = Cli | Sti | CallF(ifSeen: bool)

  /** The number of times the closure runs in `trace`. */
  function Calls(trace: seq<Step>): nat
  {
    if trace == [] then 0 else (if trace[0].CallF? then 1 else 0) + Calls(trace[1..])
  }

  /** Whether `wrap` itself touches IF in `trace`. */
  predicate WritesIf(trace: seq<Step>)
  {
    exists i :: 0 <= i < |trace| && !trace[i].CallF?
  }

  /** `wrap(f)`: sample IF; if it was set, `cli`, run `f`, `sti`; otherwise just run `f`. */
  method Wrap(cpu: InterruptFlag, f: bool -> bool) returns (trace: seq<Step>)
    modifies cpu
    ensures Calls(trace) == 1
    ensures old(cpu.enabled) ==> trace == [Cli, CallF(false), Sti] && cpu.enabled
    ensures !old(cpu.enabled) ==> trace == [CallF(false)] && !WritesIf(trace) && cpu.enabled == f(false)
  {
    var flag := cpu.enabled;
    trace := [];
    if flag {
      cpu.Cli();
      trace := trace + [Cli];
    }
    var seen := cpu.enabled;
    cpu.enabled := f(seen);
    trace := trace + [CallF(seen)];
    if flag {
      cpu.Sti();
      trace := trace + [Sti];
    }
    assert Calls(trace) == 1 by {
      if flag {
        assert trace[1..] == [CallF(false), Sti] && trace[1..][1..] == [Sti];
        assert Calls([Sti]) == 0 by { assert [Sti][1..] == []; }
      } else {
        assert trace[1..] == [];
      }
    }
  }

  /** IF after `wrap(f)`, given IF on entry. */
  function IfAfterWrap(entry: bool, f: bool -> bool): bool
  {
    if entry then true else f(false)
  }

  /** A closure that leaves IF as it found it makes `wrap` leave IF as it found it; a
      closure that enables interrupts while they were off on entry leaves them enabled,
      since `wrap` restores only what it disabled. */
  lemma WrapRestoresIf(entry: bool, f: bool -> bool)
    ensures (forall b :: f(b) == b) ==> IfAfterWrap(entry, f) == entry
    ensures !entry && f(false) ==> IfAfterWrap(entry, f)
    ensures entry ==> IfAfterWrap(entry, f)
  {
  }
}
