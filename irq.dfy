/** `IrqSafe<T>` of src/irq.rs: a counting guard that masks interrupts while the data it
    protects is borrowed. `lock` counts nested acquisitions; `unlock` counts down and is
    meant to unmask interrupts when the outermost guard goes, if they were enabled when
    it was taken. As written, `unlock` panics whenever the count reaches zero, so the
    outermost release always panics and interrupts are never unmasked. The protected data
    plays no part and is left out. */
module Irq {
  import opened Machine

  /** The two cells of the guard and the IF bit of the CPU. */
  datatype IrqState = IrqState(lockCount: nat, savedFlag: bool, intFlag: bool)

  /** `lock`: IF is sampled again (and cleared if set) unless an enclosing lock already
      recorded it as set. */
  function Lock(s: IrqState): (r: IrqState)
  {
    var saved := if s.lockCount == 0 || !s.savedFlag then s.intFlag else s.savedFlag;
    var intFlag := if (s.lockCount == 0 || !s.savedFlag) && saved then false else s.intFlag;
    IrqState(s.lockCount + 1, saved, intFlag)
  }

  /** `unlock`, as written: the state after it and whether it panicked. */
  function Unlock(s: IrqState): (r: (IrqState, bool))
  {
    var count := if s.lockCount == 0 then 0 else s.lockCount - 1;
    if count == 0 then (s.(lockCount := count), true)
    else (s.(lockCount := count), false)
  }

  /** `lock` counts one more holder; it never enables interrupts, and after it IF is clear
      whenever the recorded flag is set. */
  lemma LockCounts(s: IrqState)
    ensures Lock(s).lockCount == s.lockCount + 1
    ensures Lock(s).intFlag ==> s.intFlag
    ensures (s.lockCount == 0 || !s.savedFlag) ==> Lock(s).savedFlag == s.intFlag && !Lock(s).intFlag
    ensures (s.lockCount > 0 && s.savedFlag) ==> Lock(s) == s.(lockCount := s.lockCount + 1)
  {
  }

  /** `unlock` counts down, stopping at zero, and panics exactly when the count ends at
      zero; it never changes IF, so its `sti` branch is unreachable. */
  lemma UnlockPanicsAtZero(s: IrqState)
    ensures Unlock(s).0.lockCount == if s.lockCount == 0 then 0 else s.lockCount - 1
    ensures Unlock(s).1 <==> s.lockCount <= 1
    ensures Unlock(s).0.intFlag == s.intFlag && Unlock(s).0.savedFlag == s.savedFlag
  {
  }

  /** The defect: releasing the only holder of a free guard panics. */
  lemma OutermostUnlockPanics(s: IrqState)
    requires s.lockCount == 0
    ensures Unlock(Lock(s)).1
  {
  }

  /** `unlock` as intended: panic only when nothing is locked, and unmask interrupts when
      the last holder goes and IF was recorded as set. */
  function UnlockCorrected(s: IrqState): (r: (IrqState, bool))
  {
    if s.lockCount == 0 then (s, true)
    else
      var count := s.lockCount - 1;
      (s.(lockCount := count, intFlag := if count == 0 && s.savedFlag then true else s.intFlag), false)
  }

  /** With the intended `unlock`, a lock followed by an unlock, and two nested locks
      followed by two unlocks, never panic and leave the guard free and IF as it was. */
  lemma CorrectedUnlockRestoresIf(s: IrqState)
    requires s.lockCount == 0
    ensures var (t, p) := UnlockCorrected(Lock(s)); !p && t.lockCount == 0 && t.intFlag == s.intFlag
    ensures var (t1, p1) := UnlockCorrected(Lock(Lock(s)));
      var (t2, p2) := UnlockCorrected(t1);
      !p1 && !p2 && t2.lockCount == 0 && t2.intFlag == s.intFlag
  {
  }

  /** The guard over the CPU's IF bit. */
  class IrqSafe {
    var lockCount: nat
    var savedFlag: bool
    const cpu: InterruptFlag

    function State(): IrqState
      reads this, cpu
    {
      IrqState(lockCount, savedFlag, cpu.enabled)
    }

    /** `IrqSafe::new`. */
    constructor (cpu: InterruptFlag)
      ensures lockCount == 0 && !savedFlag && this.cpu == cpu
    {
      lockCount, savedFlag := 0, false;
      this.cpu := cpu;
    }

    method LockNow()
      modifies this, cpu
      ensures State() == Lock(old(State()))
    {
      if lockCount == 0 || !savedFlag {
        savedFlag := cpu.enabled;
        if savedFlag {
          cpu.Cli();
        }
      }
      lockCount := lockCount + 1;
    }

    /** `unlock`; `panicked` is the "unlock without lock" panic. */
    method UnlockNow() returns (panicked: bool)
      modifies this, cpu
      ensures (State(), panicked) == Unlock(old(State()))
    {
      lockCount := if lockCount == 0 then 0 else lockCount - 1;
      if lockCount == 0 {
        return true;
      }
      // The source goes on to `sti` when the count is zero and IF was recorded as set;
      // a zero count has already panicked above, so that branch is dead and left out.
      panicked := false;
    }

    /** Dropping an `IrqSafeGuard`: one `unlock`. */
    method DropGuard() returns (panicked: bool)
      modifies this, cpu
      ensures (State(), panicked) == Unlock(old(State()))
    {
      panicked := UnlockNow();
    }
  }
}
