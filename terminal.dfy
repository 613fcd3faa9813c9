/** The shell of userspace/src/terminal.rs: it reads one key at a time, echoes the
    symbol the key types, records the first five symbols typed since the last Enter in
    `command_buf`, and on Enter runs "clear" (clear the screen) or "color" (the
    animation), or starts a new line, then zeroes the buffer and shows the prompt again.
    The shell's own state is modelled here; the writer calls it makes are `Command`s. */
module Terminal {
  import opened Machine
  import opened Keys
  import opened Userspace

  /** `command_buf.len()` */
  const BUF_LEN: nat := 5

  /** `COMMAND_CLEAR`, "clear". */
  const CLEAR_COMMAND: seq<byte> := ['c' as byte, 'l' as byte, 'e' as byte, 'a' as byte, 'r' as byte]

  /** `COMMAND_ANIMATION`, "color". */
  const ANIMATION_COMMAND: seq<byte> := ['c' as byte, 'o' as byte, 'l' as byte, 'o' as byte, 'r' as byte]

  /** `upper_flag`, `command_buf` and `command_index`. */
  datatype TermState = TermState(upper: bool, buf: seq<byte>, index: nat)

  predicate Valid(s: TermState)
  {
    |s.buf| == BUF_LEN && s.index <= BUF_LEN
  }

  /** `command_buf[0..command_index]`: what Enter would run. */
  function Typed(s: TermState): seq<byte>
    requires Valid(s)
  {
    s.buf[..s.index]
  }

  /** The state `entry` starts its loop in. */
  const START: TermState := TermState(false, seq(BUF_LEN, _ => 0), 0)

  /** What Enter does with the typed command, before the new prompt. */
  function EnterCommands(typed: seq<byte>): seq<Command>
  {
    if typed == CLEAR_COMMAND then [Clear]
    else if typed == ANIMATION_COMMAND then [Animation]
    else [Write([NEWLINE])]
  }

  /** The key's own action: Backspace and Enter act; every other key does nothing yet. */
  function Prepare(s: TermState, k: Key, x: nat): (r: (TermState, seq<Command>))
    requires Valid(s)
    ensures Valid(r.0)
  {
    if k == Backspace then (s, BackspaceCommands(x))
    else if k == Enter then
      (TermState(s.upper, seq(BUF_LEN, _ => 0), 0), EnterCommands(Typed(s)) + PROMPT_COMMANDS)
    else (s, [])
  }

  /** The symbol the key types, if any, is recorded while there is room and echoed. */
  function Record(s: TermState, k: Key): (r: (TermState, seq<Command>))
    requires Valid(s)
    ensures Valid(r.0)
  {
    Store(s, Symbol(s.upper, k))
  }

  /** Recording and echoing the symbol `sym`, if there is one. */
  function Store(s: TermState, sym: Option<byte>): (r: (TermState, seq<Command>))
    requires Valid(s)
    ensures Valid(r.0)
  {
    if sym.None? then (s, [])
    else if s.index < BUF_LEN then
      (s.(buf := s.buf[s.index := sym.value], index := s.index + 1), [Write([sym.value])])
    else (s, [Write([sym.value])])
  }

  /** One turn of `entry`'s loop: the key read (None when the code is no key) and the
      writer's column `tbw.x` at that moment, to the new state and the writer calls. */
  function Step(s: TermState, key: Option<Key>, x: nat): (r: (TermState, seq<Command>))
    requires Valid(s)
    ensures Valid(r.0)
  {
    if key.None? then (s, [])
    else
      var k := key.value;
      var (s1, before) := Prepare(s, k, x);
      var (s2, echo) := Record(s1, k);
      (if k == CapsLock then s2.(upper := !s2.upper) else s2, before + echo)
  }

  /** A code that is no key changes nothing and writes nothing. */
  lemma UnknownCodeIgnored(s: TermState, x: nat)
    requires Valid(s)
    ensures Step(s, None, x) == (s, [])
  {
  }

  /** A key that types a symbol echoes exactly that symbol, records it if fewer than five
      are recorded, and leaves the state alone otherwise. */
  lemma TypingStep(s: TermState, k: Key, x: nat)
    requires Valid(s) && Symbol(s.upper, k).Some?
    ensures var (t, cmds) := Step(s, Some(k), x);
      var c := Symbol(s.upper, k).value;
      && cmds == [Write([c])]
      && t.upper == s.upper
      && (s.index < BUF_LEN ==> Typed(t) == Typed(s) + [c])
      && (s.index == BUF_LEN ==> t == s)
  {
    ControlKeysTypeNothing(k);
    var t := Step(s, Some(k), x).0;
    var c := Symbol(s.upper, k).value;
    if s.index < BUF_LEN {
      assert t.buf == s.buf[s.index := c];
      assert Typed(t) == Typed(s) + [c];
    }
  }

  /** Enter runs "clear" exactly when those five symbols were typed and "color" exactly
      when those were, and otherwise starts a new line; then it shows the prompt again,
      green, and leaves an empty, zeroed command buffer. */
  lemma EnterStep(s: TermState, x: nat)
    requires Valid(s)
    ensures var (t, cmds) := Step(s, Some(Enter), x);
      && (cmds[0] == Clear <==> Typed(s) == CLEAR_COMMAND)
      && (cmds[0] == Animation <==> Typed(s) == ANIMATION_COMMAND)
      && (cmds[0] == Write([NEWLINE]) <==> Typed(s) != CLEAR_COMMAND && Typed(s) != ANIMATION_COMMAND)
      && cmds[1..] == PROMPT_COMMANDS
      && t == START.(upper := s.upper)
  {
    ControlKeysTypeNothing(Enter);
    assert CLEAR_COMMAND[1] != ANIMATION_COMMAND[1];
  }

  /** Backspace erases one character only when the column is right of the prompt; it
      does not touch the command buffer. */
  lemma BackspaceStep(s: TermState, x: nat)
    requires Valid(s)
    ensures var (t, cmds) := Step(s, Some(Backspace), x);
      && t == s
      && (cmds == [StepBack] <==> x > |PROMPT|)
      && (cmds == [] <==> x <= |PROMPT|)
  {
    ControlKeysTypeNothing(Backspace);
  }

  /** CapsLock switches tables and does nothing else. */
  lemma CapsLockStep(s: TermState, x: nat)
    requires Valid(s)
    ensures Step(s, Some(CapsLock), x) == (s.(upper := !s.upper), [])
  {
    ControlKeysTypeNothing(CapsLock);
    assert Prepare(s, CapsLock, x) == (s, []);
    assert Record(s, CapsLock) == (s, []);
    assert Step(s, Some(CapsLock), x).1 == [] + [];
  }

  /** `entry`'s loop over a finite run of keys, `cols[i]` being the writer's column when
      key i is read. */
  function Run(s: TermState, keys: seq<Option<Key>>, cols: seq<nat>): (r: (TermState, seq<Command>))
    requires Valid(s) && |cols| == |keys|
    ensures Valid(r.0)
    decreases |keys|
  {
    if keys == [] then (s, [])
    else
      var (t, cmds) := Step(s, keys[0], cols[0]);
      var (u, more) := Run(t, keys[1..], cols[1..]);
      (u, cmds + more)
  }

  /** The first n symbols of `e`, for n up to the buffer's length. */
  function Keep(e: seq<byte>): seq<byte>
  {
    if |e| <= BUF_LEN then e else e[..BUF_LEN]
  }

  /** Any key but Enter keeps the recorded command equal to the first five symbols of
      what has been echoed. */
  lemma NonEnterStep(s: TermState, key: Option<Key>, x: nat)
    requires Valid(s) && key != Some(Enter)
    ensures var (t, cmds) := Step(s, key, x);
      Typed(t) == Keep(Typed(s) + Written(cmds))
  {
    if key.Some? {
      var k := key.value;
      ControlKeysTypeNothing(k);
      var cmds := Step(s, key, x).1;
      if Symbol(s.upper, k).Some? {
        TypingStep(s, k, x);
        assert Written(cmds) == [Symbol(s.upper, k).value] by {
          assert cmds[1..] == [];
        }
      } else {
        assert cmds == [] || cmds == [StepBack];
        assert Written(cmds) == [] by {
          if cmds != [] { assert cmds[1..] == []; }
        }
        assert Typed(s) + [] == Typed(s);
      }
    }
  }

  /** Keeping the first five of the first five and more is keeping the first five. */
  lemma KeepTwice(p: seq<byte>, e1: seq<byte>, e2: seq<byte>)
    ensures Keep(Keep(p + e1) + e2) == Keep(p + e1 + e2)
  {
    if |p + e1| > BUF_LEN {
      assert (p + e1 + e2)[..BUF_LEN] == (p + e1)[..BUF_LEN];
    } else {
      assert p + e1 + e2 == (p + e1) + e2;
    }
  }

  /** A run of keys is its first turn followed by the rest. */
  lemma RunFirst(s: TermState, keys: seq<Option<Key>>, cols: seq<nat>)
    requires Valid(s) && |cols| == |keys| > 0
    ensures var (t, cmds) := Step(s, keys[0], cols[0]);
      Run(s, keys, cols) == (Run(t, keys[1..], cols[1..]).0, cmds + Run(t, keys[1..], cols[1..]).1)
  {
  }

  /** The same, for a run that starts at key i, behind the calls made so far. */
  lemma RunAdvance(s: TermState, keys: seq<Option<Key>>, cols: seq<nat>, i: nat, done: seq<Command>)
    requires Valid(s) && |cols| == |keys| && i < |keys|
    ensures var (t, more) := Step(s, keys[i], cols[i]);
      && Run(s, keys[i..], cols[i..]).0 == Run(t, keys[i + 1..], cols[i + 1..]).0
      && done + Run(s, keys[i..], cols[i..]).1 == (done + more) + Run(t, keys[i + 1..], cols[i + 1..]).1
  {
    RunFirst(s, keys[i..], cols[i..]);
    assert keys[i..][1..] == keys[i + 1..] && cols[i..][1..] == cols[i + 1..];
  }

  /** Two stretches that each keep the first five symbols keep the first five of both. */
  lemma KeepChains(p: seq<byte>, q: seq<byte>, r: seq<byte>, a: seq<Command>, b: seq<Command>)
    requires q == Keep(p + Written(a)) && r == Keep(q + Written(b))
    ensures r == Keep(p + Written(a + b))
  {
    WrittenAppends(a, b);
    KeepTwice(p, Written(a), Written(b));
    assert p + Written(a) + Written(b) == p + (Written(a) + Written(b));
  }

  /** Between two Enters the command buffer holds the first five symbols echoed: later
      symbols are echoed but not recorded, and Backspace erases on screen but not in the
      buffer. */
  lemma {:induction false} RecordsFirstFive(s: TermState, keys: seq<Option<Key>>, cols: seq<nat>)
    requires Valid(s) && |cols| == |keys|
    requires forall i :: 0 <= i < |keys| ==> keys[i] != Some(Enter)
    ensures var (t, cmds) := Run(s, keys, cols);
      Typed(t) == Keep(Typed(s) + Written(cmds))
    decreases |keys|
  {
    if keys == [] {
      assert Typed(s) + [] == Typed(s);
    } else {
      var (t, cmds) := Step(s, keys[0], cols[0]);
      NonEnterStep(s, keys[0], cols[0]);
      RecordsFirstFive(t, keys[1..], cols[1..]);
      var (u, more) := Run(t, keys[1..], cols[1..]);
      RunFirst(s, keys, cols);
      KeepChains(Typed(s), Typed(t), Typed(u), cmds, more);
    }
  }

  /** From the prompt, a line of keys and then Enter runs the command named by the first
      five symbols echoed: "clear" clears the screen (and so does any longer line that
      starts with it), "color" runs the animation, anything else starts a new line. */
  lemma EnterRunsFirstFive(s: TermState, keys: seq<Option<Key>>, cols: seq<nat>, x: nat)
    requires Valid(s) && s.index == 0 && |cols| == |keys|
    requires forall i :: 0 <= i < |keys| ==> keys[i] != Some(Enter)
    ensures var (t, cmds) := Run(s, keys, cols);
      var e := Written(cmds);
      var enter := Step(t, Some(Enter), x).1;
      && (enter[0] == Clear <==> Keep(e) == CLEAR_COMMAND)
      && (enter[0] == Animation <==> Keep(e) == ANIMATION_COMMAND)
  {
    RecordsFirstFive(s, keys, cols);
    var t := Run(s, keys, cols).0;
    assert Typed(s) == [];
    assert [] + Written(Run(s, keys, cols).1) == Written(Run(s, keys, cols).1);
    EnterStep(t, x);
  }

  /** The shell's variables; the command buffer is the five-byte array of the source. */
  class EntryLoop {
    var upper: bool
    const buf: array<byte>
    var index: nat

    function State(): TermState
      reads this, buf
    {
      TermState(upper, buf[..], index)
    }

    /** The variables as `entry` sets them up. */
    constructor ()
      ensures State() == START && fresh(buf)
    {
      upper := false;
      buf := new byte[BUF_LEN](_ => 0);
      index := 0;
      new;
      assert buf[..] == seq(BUF_LEN, _ => 0);
    }

    /** One turn of the loop, on the key read and the writer's column. */
    method HandleKey(key: Option<Key>, x: nat) returns (cmds: seq<Command>)
      requires Valid(State())
      modifies this, buf
      ensures (State(), cmds) == Step(old(State()), key, x)
    {
      if key.None? {
        return [];
      }
      var k := key.value;
      cmds := PrepareNow(k, x);
      var echo := RecordNow(k);
      if k == CapsLock {
        upper := !upper;
      }
      cmds := cmds + echo;
    }

    method PrepareNow(k: Key, x: nat) returns (cmds: seq<Command>)
      requires Valid(State())
      modifies this, buf
      ensures (State(), cmds) == Prepare(old(State()), k, x)
    {
      cmds := [];
      if k == Backspace {
        cmds := BackspaceCommands(x);
      } else if k == Enter {
        cmds := EnterCommands(buf[..index]) + PROMPT_COMMANDS;
        var i := 0;
        while i < BUF_LEN
          invariant 0 <= i <= BUF_LEN && upper == old(upper)
          invariant forall j :: 0 <= j < i ==> buf[j] == 0
        {
          buf[i] := 0;
          i := i + 1;
        }
        assert buf[..] == seq(BUF_LEN, _ => 0);
        index := 0;
      }
    }

    method RecordNow(k: Key) returns (cmds: seq<Command>)
      requires Valid(State())
      modifies this, buf
      ensures (State(), cmds) == Record(old(State()), k)
    {
      cmds := StoreNow(Symbol(upper, k));
    }

    method StoreNow(sym: Option<byte>) returns (cmds: seq<Command>)
      requires Valid(State())
      modifies this, buf
      ensures (State(), cmds) == Store(old(State()), sym)
    {
      cmds := [];
      if sym.Some? {
        if index < BUF_LEN {
          buf[index] := sym.value;
          index := index + 1;
        }
        cmds := [Write([sym.value])];
      }
    }

    /** `entry` on a finite run of keys: the start-up calls, then the calls of every
        turn, in order. */
    method Session(keys: seq<Option<Key>>, cols: seq<nat>) returns (cmds: seq<Command>)
      requires State() == START && |cols| == |keys|
      modifies this, buf
      ensures (State(), cmds) == (Run(START, keys, cols).0, START_COMMANDS + Run(START, keys, cols).1)
    {
      var done: seq<Command> := [];
      var i := 0;
      assert keys[0..] == keys && cols[0..] == cols;
      while i < |keys|
        invariant 0 <= i <= |keys| && Valid(State())
        invariant Run(START, keys, cols).0 == Run(State(), keys[i..], cols[i..]).0
        invariant Run(START, keys, cols).1 == done + Run(State(), keys[i..], cols[i..]).1
      {
        RunAdvance(State(), keys, cols, i, done);
        var more := HandleKey(keys[i], cols[i]);
        done := done + more;
        i := i + 1;
      }
      assert done + [] == done;
      cmds := START_COMMANDS + done;
    }
  }
}
