/** `IntSafe<T>` of src/sync.rs: a non-reentrant guard that masks interrupts while the
    data it protects is borrowed, and unmasks them on release only if they were enabled
    when it was taken. The protected data itself plays no part and is left out. */
module Sync {
  import opened Machine

  /** The two cells of the guard and the IF bit of the CPU. */
  datatype GuardState = GuardState(locked: bool, savedFlag: bool, intFlag: bool)

  /** `try_lock`: `true` stands for `Some(guard)`. */
  function TryLock(s: GuardState): (r: (GuardState, bool))
  {
    if s.locked then (s, false)
    else (GuardState(true, s.intFlag, false), true)
  }

  /** `try_unlock`: `true` stands for `Some(())`. */
  function TryUnlock(s: GuardState): (r: (GuardState, bool))
  {
    if !s.locked then (s, false)
    else (s.(locked := false, intFlag := if s.savedFlag then true else s.intFlag), true)
  }

  /** Taking the guard fails and changes nothing when it is held; otherwise it records IF,
      masks interrupts and marks the guard held. */
  lemma TryLockCases(s: GuardState)
    ensures s.locked ==> TryLock(s) == (s, false)
    ensures !s.locked ==> (TryLock(s).1 && TryLock(s).0.locked && !TryLock(s).0.intFlag
      && TryLock(s).0.savedFlag == s.intFlag)
  {
  }

  /** Releasing fails and changes nothing when the guard is free; otherwise it frees the
      guard and sets IF exactly when IF was recorded as set. */
  lemma TryUnlockCases(s: GuardState)
    ensures !s.locked ==> TryUnlock(s) == (s, false)
    ensures s.locked ==> (TryUnlock(s).1 && !TryUnlock(s).0.locked
      && (s.savedFlag ==> TryUnlock(s).0.intFlag)
      && (!s.savedFlag ==> TryUnlock(s).0.intFlag == s.intFlag))
  {
  }

  /** Taking and then releasing a free guard leaves IF as it was before and the guard
      free again, as long as nothing in between touched IF. */
  lemma LockUnlockRestoresIf(s: GuardState)
    requires !s.locked
    ensures var (t, ok) := TryLock(s);
      ok && TryUnlock(t).1 && TryUnlock(t).0.intFlag == s.intFlag && !TryUnlock(t).0.locked
  {
  }

  /** A call that may panic: `lock` on a held guard and `unlock` on a free one do. */
  datatype Outcome = Ok | Panic(message: string)

  class IntSafe {
    var locked: bool
    var savedFlag: bool
    const cpu: InterruptFlag

    function State(): GuardState
      reads this, cpu
    {
      GuardState(locked, savedFlag, cpu.enabled)
    }

    /** `IntSafe::new`: free, nothing recorded. */
    constructor (cpu: InterruptFlag)
      ensures !locked && !savedFlag && this.cpu == cpu
    {
      locked, savedFlag := false, false;
      this.cpu := cpu;
    }

    method TryLockNow() returns (acquired: bool)
      modifies this, cpu
      ensures (State(), acquired) == TryLock(old(State()))
    {
      if locked {
        return false;
      }
      savedFlag := cpu.enabled;
      if savedFlag {
        cpu.Cli();
      }
      locked := true;
      acquired := true;
    }

    /** `lock`: panics on a double lock. */
    method Lock() returns (r: Outcome)
      modifies this, cpu
      ensures r.Panic? <==> old(locked)
      ensures State() == TryLock(old(State())).0
    {
      var acquired := TryLockNow();
      r := if acquired then Ok else Panic("double lock");
    }

    method TryUnlockNow() returns (released: bool)
      modifies this, cpu
      ensures (State(), released) == TryUnlock(old(State()))
    {
      if !locked {
        return false;
      }
      locked := false;
      if savedFlag {
        cpu.Sti();
      }
      released := true;
    }

    /** `unlock`: panics when nothing is locked. */
    method Unlock() returns (r: Outcome)
      modifies this, cpu
      ensures r.Panic? <==> !old(locked)
      ensures State() == TryUnlock(old(State())).0
    {
      var released := TryUnlockNow();
      r := if released then Ok else Panic("IrqSafe: unlock without lock");
    }

    /** Dropping an `IntSafeGuard`: one `unlock`. */
    method DropGuard() returns (r: Outcome)
      modifies this, cpu
      ensures r.Panic? <==> !old(locked)
      ensures State() == TryUnlock(old(State())).0
    {
      r := Unlock();
    }
  }
}
