/** The shell of userspace/src/lib.rs. It differs from the one in terminal.rs in how it
    records a command: the first four symbols typed since the last Enter go to
    `command_buf[0..4]`, and every later symbol overwrites `command_buf[4]` and clears
    `command_wait_flag`. Enter clears the screen when the flag is clear and the buffer
    spells "clear" in any mix of cases, and otherwise starts a new line; it then resets
    the index and the flag but keeps the buffer's bytes. There is no animation. */
module Shell {
  import opened Machine
  import opened Keys
  import opened Userspace

  /** `command_buf.len()` */
  const BUF_LEN: nat := 5

  /** The last slot, `command_buf.len() - 1`. */
  const LAST: nat := BUF_LEN - 1

  /** `upper_flag`, `command_buf`, `command_index` and `command_wait_flag`. */
  datatype ShellState = ShellState(upper: bool, buf: seq<byte>, index: nat, wait: bool)

  predicate Valid(s: ShellState)
  {
    |s.buf| == BUF_LEN && s.index <= LAST
  }

  /** The state `entry` starts its loop in. */
  const START: ShellState := ShellState(false, seq(BUF_LEN, _ => 0), 0, true)

  /** A byte that is the letter `lower` in either case. */
  predicate Letter(b: byte, lower: char)
  {
    b == lower as int || b == lower as int - 32
  }

  /** The pattern Enter matches: `[b'c' | b'C', b'l' | b'L', b'e' | b'E', b'a' | b'A',
      b'r' | b'R']`. */
  predicate SpellsClear(buf: seq<byte>)
    requires |buf| == BUF_LEN
  {
    Letter(buf[0], 'c') && Letter(buf[1], 'l') && Letter(buf[2], 'e')
      && Letter(buf[3], 'a') && Letter(buf[4], 'r')
  }

  /** What Enter does before the new prompt. */
  function EnterCommands(s: ShellState): seq<Command>
    requires Valid(s)
  {
    if !s.wait && SpellsClear(s.buf) then [Clear] else [Write([NEWLINE])]
  }

  /** The key's own action: Backspace and Enter act; every other key does nothing yet. */
  function Prepare(s: ShellState, k: Key, x: nat): (r: (ShellState, seq<Command>))
    requires Valid(s)
    ensures Valid(r.0)
  {
    if k == Backspace then (s, BackspaceCommands(x))
    else if k == Enter then (s.(index := 0, wait := true), EnterCommands(s) + PROMPT_COMMANDS)
    else (s, [])
  }

  /** The symbol the key types, if any, is recorded and echoed: in the next slot while
      the index is below the last slot, in the last slot (clearing the wait flag) once
      it is there. */
  function Record(s: ShellState, k: Key): (r: (ShellState, seq<Command>))
    requires Valid(s)
    ensures Valid(r.0)
  {
    Store(s, Symbol(s.upper, k))
  }

  /** Recording and echoing the symbol `sym`, if there is one. */
  function Store(s: ShellState, sym: Option<byte>): (r: (ShellState, seq<Command>))
    requires Valid(s)
    ensures Valid(r.0)
  {
    if sym.None? then (s, [])
    else if s.index < LAST then
      (s.(buf := s.buf[s.index := sym.value], index := s.index + 1), [Write([sym.value])])
    else
      (s.(buf := s.buf[LAST := sym.value], wait := false), [Write([sym.value])])
  }

  /** One turn of `entry`'s loop: the key read (None when the code is no key) and the
      writer's column `tbw.x` at that moment, to the new state and the writer calls. */
  function Step(s: ShellState, key: Option<Key>, x: nat): (r: (ShellState, seq<Command>))
    requires Valid(s)
    ensures Valid(r.0)
  {
    if key.None? then (s, [])
    else
      var k := key.value;
      var (s1, before) := Prepare(s, k, x);
      var (s2, echo) := Record(s1, k);
      (if k == CapsLock then s2.(upper := !s2.upper) else s2, before + echo)
  }

  /** A key that types a symbol echoes exactly that symbol; it goes to the next slot
      while the index is below the last slot, and otherwise to the last slot, clearing
      the wait flag. */
  lemma TypingStep(s: ShellState, k: Key, x: nat)
    requires Valid(s) && Symbol(s.upper, k).Some?
    ensures var (t, cmds) := Step(s, Some(k), x);
      var c := Symbol(s.upper, k).value;
      && cmds == [Write([c])]
      && t.upper == s.upper
      && (s.index < LAST ==> t == s.(buf := s.buf[s.index := c], index := s.index + 1))
      && (s.index == LAST ==> t == s.(buf := s.buf[LAST := c], wait := false))
  {
    ControlKeysTypeNothing(k);
    assert Prepare(s, k, x) == (s, []);
  }

  /** Enter clears the screen exactly when the wait flag is clear and the buffer spells
      "clear" in any mix of cases, and otherwise starts a new line; then it shows the
      prompt again, green, with index 0 and the wait flag set, and the buffer's bytes
      kept. */
  lemma EnterStep(s: ShellState, x: nat)
    requires Valid(s)
    ensures var (t, cmds) := Step(s, Some(Enter), x);
      && (cmds[0] == Clear <==> !s.wait && SpellsClear(s.buf))
      && (cmds[0] == Write([NEWLINE]) <==> !(!s.wait && SpellsClear(s.buf)))
      && cmds[1..] == PROMPT_COMMANDS
      && t == s.(index := 0, wait := true)
  {
    ControlKeysTypeNothing(Enter);
    assert Record(s.(index := 0, wait := true), Enter).1 == [];
  }

  /** Backspace erases one character only when the column is right of the prompt; it
      does not touch the command buffer. */
  lemma BackspaceStep(s: ShellState, x: nat)
    requires Valid(s)
    ensures var (t, cmds) := Step(s, Some(Backspace), x);
      && t == s
      && (cmds == [StepBack] <==> x > |PROMPT|)
      && (cmds == [] <==> x <= |PROMPT|)
  {
    ControlKeysTypeNothing(Backspace);
    assert Record(s, Backspace) == (s, []);
  }

  /** CapsLock switches tables and does nothing else. */
  lemma CapsLockStep(s: ShellState, x: nat)
    requires Valid(s)
    ensures Step(s, Some(CapsLock), x) == (s.(upper := !s.upper), [])
  {
    ControlKeysTypeNothing(CapsLock);
    assert Prepare(s, CapsLock, x) == (s, []);
    assert Record(s, CapsLock) == (s, []);
    assert Step(s, Some(CapsLock), x).1 == [] + [];
  }

  /** `entry`'s loop over a finite run of keys, `cols[i]` being the writer's column when
      key i is read. */
  function Run(s: ShellState, keys: seq<Option<Key>>, cols: seq<nat>): (r: (ShellState, seq<Command>))
    requires Valid(s) && |cols| == |keys|
    ensures Valid(r.0)
    decreases |keys|
  {
    if keys == [] then (s, [])
    else
      var (t, cmds) := Step(s, keys[0], cols[0]);
      var (u, more) := Run(t, keys[1..], cols[1..]);
      (u, cmds + more)
  }

  /** The buffer after the symbols `e` were typed since the last Enter over the bytes
      `b` it held then: the first four symbols in the first four slots and the last
      symbol in the last slot once there are five or more; untouched slots keep `b`. */
  function Filled(b: seq<byte>, e: seq<byte>): (r: seq<byte>)
    requires |b| == BUF_LEN
    ensures |r| == BUF_LEN
  {
    if |e| <= LAST then e + b[|e|..] else e[..LAST] + [e[|e| - 1]]
  }

  /** The state after the symbols `e` were typed since the last Enter, over `b`. */
  predicate Absorbed(s: ShellState, b: seq<byte>, e: seq<byte>)
    requires |b| == BUF_LEN
  {
    && s.index == (if |e| <= LAST then |e| else LAST)
    && s.wait == (|e| <= LAST)
    && s.buf == Filled(b, e)
  }

  /** Recording one more symbol is absorbing it. */
  lemma RecordAbsorbs(s: ShellState, b: seq<byte>, e: seq<byte>, c: byte)
    requires Valid(s) && |b| == BUF_LEN && Absorbed(s, b, e)
    ensures s.index < LAST ==> Absorbed(s.(buf := s.buf[s.index := c], index := s.index + 1), b, e + [c])
    ensures s.index == LAST ==> Absorbed(s.(buf := s.buf[LAST := c], wait := false), b, e + [c])
  {
    var e2 := e + [c];
    if |e| < LAST {
      assert Filled(b, e2) == e2 + b[|e2|..];
      assert s.buf[s.index := c] == e2 + b[|e2|..];
    } else {
      assert e2[..LAST] == e[..LAST];
      if |e| == LAST {
        assert s.buf == e + b[LAST..];
      }
      assert s.buf[LAST := c] == e[..LAST] + [c];
    }
  }

  /** Any key but Enter absorbs the symbols it echoes. */
  lemma NonEnterStep(s: ShellState, key: Option<Key>, x: nat, b: seq<byte>, e: seq<byte>)
    requires Valid(s) && |b| == BUF_LEN && Absorbed(s, b, e) && key != Some(Enter)
    ensures var (t, cmds) := Step(s, key, x);
      Absorbed(t, b, e + Written(cmds))
  {
    if key.Some? {
      var k := key.value;
      ControlKeysTypeNothing(k);
      var cmds := Step(s, key, x).1;
      if Symbol(s.upper, k).Some? {
        var c := Symbol(s.upper, k).value;
        TypingStep(s, k, x);
        RecordAbsorbs(s, b, e, c);
        assert Written(cmds) == [c] by {
          assert cmds[1..] == [];
        }
      } else {
        assert cmds == [] || cmds == [StepBack];
        assert Written(cmds) == [] by {
          if cmds != [] { assert cmds[1..] == []; }
        }
        assert e + [] == e;
      }
    }
  }

  /** A run of keys is its first turn followed by the rest. */
  lemma RunFirst(s: ShellState, keys: seq<Option<Key>>, cols: seq<nat>)
    requires Valid(s) && |cols| == |keys| > 0
    ensures var (t, cmds) := Step(s, keys[0], cols[0]);
      Run(s, keys, cols) == (Run(t, keys[1..], cols[1..]).0, cmds + Run(t, keys[1..], cols[1..]).1)
  {
  }

  /** The same, for a run that starts at key i, behind the calls made so far. */
  lemma RunAdvance(s: ShellState, keys: seq<Option<Key>>, cols: seq<nat>, i: nat, done: seq<Command>)
    requires Valid(s) && |cols| == |keys| && i < |keys|
    ensures var (t, more) := Step(s, keys[i], cols[i]);
      && Run(s, keys[i..], cols[i..]).0 == Run(t, keys[i + 1..], cols[i + 1..]).0
      && done + Run(s, keys[i..], cols[i..]).1 == (done + more) + Run(t, keys[i + 1..], cols[i + 1..]).1
  {
    var k := keys[i..];
    var c := cols[i..];
    assert k[0] == keys[i] && c[0] == cols[i];
    assert k[1..] == keys[i + 1..] && c[1..] == cols[i + 1..];
    RunFirst(s, k, c);
    var (t, more) := Step(s, keys[i], cols[i]);
    var rest := Run(t, keys[i + 1..], cols[i + 1..]).1;
    assert done + (more + rest) == (done + more) + rest;
  }

  /** Absorbing two stretches of echoed symbols is absorbing both. */
  lemma AbsorbChains(u: ShellState, b: seq<byte>, e: seq<byte>, a: seq<Command>, m: seq<Command>)
    requires |b| == BUF_LEN && Absorbed(u, b, e + Written(a) + Written(m))
    ensures Absorbed(u, b, e + Written(a + m))
  {
    WrittenAppends(a, m);
    assert e + Written(a) + Written(m) == e + Written(a + m);
  }

  /** Between two Enters the shell's variables are the symbols echoed so far, absorbed
      as `Filled` says. */
  lemma {:induction false} AbsorbsLine(s: ShellState, keys: seq<Option<Key>>, cols: seq<nat>, b: seq<byte>, e: seq<byte>)
    requires Valid(s) && |cols| == |keys| && |b| == BUF_LEN && Absorbed(s, b, e)
    requires forall i :: 0 <= i < |keys| ==> keys[i] != Some(Enter)
    ensures var (t, cmds) := Run(s, keys, cols);
      Absorbed(t, b, e + Written(cmds))
    decreases |keys|
  {
    if keys == [] {
      assert e + [] == e;
    } else {
      var (t, cmds) := Step(s, keys[0], cols[0]);
      NonEnterStep(s, keys[0], cols[0], b, e);
      AbsorbsLine(t, keys[1..], cols[1..], b, e + Written(cmds));
      var (u, more) := Run(t, keys[1..], cols[1..]);
      RunFirst(s, keys, cols);
      AbsorbChains(u, b, e, cmds, more);
    }
  }

  /** From the prompt, a line of keys and then Enter clears the screen exactly when at
      least five symbols were echoed, the first four spell "clea" and the last is "r",
      each in either case: "clear" and "CLEAR" clear, so do "cleanr" and "clearer", and
      "clears" does not. */
  lemma EnterAfterLine(s: ShellState, keys: seq<Option<Key>>, cols: seq<nat>, x: nat)
    requires Valid(s) && s.index == 0 && s.wait && |cols| == |keys|
    requires forall i :: 0 <= i < |keys| ==> keys[i] != Some(Enter)
    ensures var (t, cmds) := Run(s, keys, cols);
      var e := Written(cmds);
      (Step(t, Some(Enter), x).1[0] == Clear <==>
        |e| >= BUF_LEN && Letter(e[0], 'c') && Letter(e[1], 'l') && Letter(e[2], 'e')
          && Letter(e[3], 'a') && Letter(e[|e| - 1], 'r'))
  {
    assert Filled(s.buf, []) == s.buf;
    AbsorbsLine(s, keys, cols, s.buf, []);
    var (t, cmds) := Run(s, keys, cols);
    var e := Written(cmds);
    assert [] + e == e;
    EnterStep(t, x);
    if |e| >= BUF_LEN {
      assert t.buf == e[..LAST] + [e[|e| - 1]];
    }
  }

  /** The shell's variables; the command buffer is the five-byte array of the source. */
  class EntryLoop {
    var upper: bool
    const buf: array<byte>
    var index: nat
    var wait: bool

    function State(): ShellState
      reads this, buf
    {
      ShellState(upper, buf[..], index, wait)
    }

    /** The variables as `entry` sets them up. */
    constructor ()
      ensures State() == START && fresh(buf)
    {
      upper := false;
      buf := new byte[BUF_LEN](_ => 0);
      index := 0;
      wait := true;
      new;
      assert buf[..] == seq(BUF_LEN, _ => 0);
    }

    /** One turn of the loop, on the key read and the writer's column. */
    method HandleKey(key: Option<Key>, x: nat) returns (cmds: seq<Command>)
      requires Valid(State())
      modifies this, buf
      ensures (State(), cmds) == Step(old(State()), key, x)
    {
      if key.None? {
        return [];
      }
      var k := key.value;
      cmds := PrepareNow(k, x);
      var echo := RecordNow(k);
      if k == CapsLock {
        upper := !upper;
      }
      cmds := cmds + echo;
    }

    method PrepareNow(k: Key, x: nat) returns (cmds: seq<Command>)
      requires Valid(State())
      modifies this
      ensures (State(), cmds) == Prepare(old(State()), k, x)
    {
      cmds := [];
      if k == Backspace {
        cmds := BackspaceCommands(x);
      } else if k == Enter {
        cmds := EnterCommands(State()) + PROMPT_COMMANDS;
        index := 0;
        wait := true;
      }
    }

    method RecordNow(k: Key) returns (cmds: seq<Command>)
      requires Valid(State())
      modifies this, buf
      ensures (State(), cmds) == Record(old(State()), k)
    {
      cmds := StoreNow(Symbol(upper, k));
    }

    method StoreNow(sym: Option<byte>) returns (cmds: seq<Command>)
      requires Valid(State())
      modifies this, buf
      ensures (State(), cmds) == Store(old(State()), sym)
    {
      cmds := [];
      if sym.Some? {
        if index < LAST {
          buf[index] := sym.value;
          index := index + 1;
        } else {
          buf[LAST] := sym.value;
          wait := false;
        }
        cmds := [Write([sym.value])];
      }
    }

    /** `entry` on a finite run of keys: the start-up calls, then the calls of every
        turn, in order. */
    method Session(keys: seq<Option<Key>>, cols: seq<nat>) returns (cmds: seq<Command>)
      requires State() == START && |cols| == |keys|
      modifies this, buf
      ensures (State(), cmds) == (Run(START, keys, cols).0, START_COMMANDS + Run(START, keys, cols).1)
    {
      var done: seq<Command> := [];
      var i := 0;
      assert keys[0..] == keys && cols[0..] == cols;
      while i < |keys|
        invariant 0 <= i <= |keys| && Valid(State())
        invariant Run(START, keys, cols).0 == Run(State(), keys[i..], cols[i..]).0
        invariant Run(START, keys, cols).1 == done + Run(State(), keys[i..], cols[i..]).1
      {
        RunAdvance(State(), keys, cols, i, done);
        var more := HandleKey(keys[i], cols[i]);
        done := done + more;
        i := i + 1;
      }
      assert done + [] == done;
      cmds := START_COMMANDS + done;
    }
  }
}
