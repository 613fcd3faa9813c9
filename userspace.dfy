/** What the two userspace shells (userspace/src/terminal.rs and userspace/src/lib.rs)
    share: the key→symbol tables, which both files define line for line the same (the
    symbol a key types without and with CapsLock, or none), the prompt, and the commands
    a shell gives its text-buffer writer. */
module Userspace {
  import opened Machine
  import opened Keys

  /** `key_to_symbol` */
  function Lower(key: Key): Option<byte>
  {
    match key
    case Backspace | Enter | CapsLock => None
    case BackTick => Some('`' as byte)
    case Key1 => Some('1' as byte) case Key2 => Some('2' as byte) case Key3 => Some('3' as byte)
    case Key4 => Some('4' as byte) case Key5 => Some('5' as byte) case Key6 => Some('6' as byte)
    case Key7 => Some('7' as byte) case Key8 => Some('8' as byte) case Key9 => Some('9' as byte)
    case Key0 => Some('0' as byte)
    case Minus => Some('-' as byte) case Equal => Some('=' as byte)
    case Q => Some('q' as byte) case W => Some('w' as byte) case E => Some('e' as byte)
    case R => Some('r' as byte) case T => Some('t' as byte) case Y => Some('y' as byte)
    case U => Some('u' as byte) case I => Some('i' as byte) case O => Some('o' as byte)
    case P => Some('p' as byte)
    case OpenBrace => Some('[' as byte) case CloseBrace => Some(']' as byte)
    case Backslash => Some('\\' as byte)
    case A => Some('a' as byte) case S => Some('s' as byte) case D => Some('d' as byte)
    case F => Some('f' as byte) case G => Some('g' as byte) case H => Some('h' as byte)
    case J => Some('j' as byte) case K => Some('k' as byte) case L => Some('l' as byte)
    case SemiColon => Some(';' as byte) case SingleQuote => Some('\'' as byte)
    case Z => Some('z' as byte) case X => Some('x' as byte) case C => Some('c' as byte)
    case V => Some('v' as byte) case B => Some('b' as byte) case N => Some('n' as byte)
    case M => Some('m' as byte)
    case Comma => Some(',' as byte) case Dot => Some('.' as byte) case Slash => Some('/' as byte)
    case Space => Some(' ' as byte)
    case _ => None
  }

  /** `key_to_upper_symbol` */
  function Upper(key: Key): Option<byte>
  {
    match key
    case Backspace | Enter | CapsLock => None
    case BackTick => Some('~' as byte)
    case Key1 => Some('!' as byte) case Key2 => Some('@' as byte) case Key3 => Some('#' as byte)
    case Key4 => Some('$' as byte) case Key5 => Some('%' as byte) case Key6 => Some('^' as byte)
    case Key7 => Some('&' as byte) case Key8 => Some('*' as byte) case Key9 => Some('(' as byte)
    case Key0 => Some(')' as byte)
    case Minus => Some('_' as byte) case Equal => Some('+' as byte)
    case Q => Some('Q' as byte) case W => Some('W' as byte) case E => Some('E' as byte)
    case R => Some('R' as byte) case T => Some('T' as byte) case Y => Some('Y' as byte)
    case U => Some('U' as byte) case I => Some('I' as byte) case O => Some('O' as byte)
    case P => Some('P' as byte)
    case OpenBrace => Some('{' as byte) case CloseBrace => Some('}' as byte)
    case Backslash => Some('|' as byte)
    case A => Some('A' as byte) case S => Some('S' as byte) case D => Some('D' as byte)
    case F => Some('F' as byte) case G => Some('G' as byte) case H => Some('H' as byte)
    case J => Some('J' as byte) case K => Some('K' as byte) case L => Some('L' as byte)
    case SemiColon => Some(':' as byte) case SingleQuote => Some('"' as byte)
    case Z => Some('Z' as byte) case X => Some('X' as byte) case C => Some('C' as byte)
    case V => Some('V' as byte) case B => Some('B' as byte) case N => Some('N' as byte)
    case M => Some('M' as byte)
    case Comma => Some('<' as byte) case Dot => Some('>' as byte) case Slash => Some('?' as byte)
    case Space => Some(' ' as byte)
    case _ => None
  }

  /** The first half of the `Key` variants, in declaration order. */
  predicate LeadingVariant(key: Key)
  {
    key.Esc? || key.F1? || key.F2? || key.F3? || key.F4? || key.F5? || key.F6? ||
    key.F7? || key.F8? || key.F9? || key.F10? || key.F11? || key.F12? || key.BackTick? ||
    key.Key1? || key.Key2? || key.Key3? || key.Key4? || key.Key5? || key.Key6? ||
    key.Key7? || key.Key8? || key.Key9? || key.Key0? || key.Minus? || key.Equal? ||
    key.Backspace? || key.Tab? || key.Q? || key.W? || key.E? || key.R? || key.T? ||
    key.Y? || key.U? || key.I? || key.O? || key.P? || key.OpenBracket? ||
    key.CloseBracket? || key.OpenBrace? || key.CloseBrace? || key.Backslash? ||
    key.CapsLock? || key.A? || key.S? || key.D? || key.F? || key.G? || key.H? || key.J? ||
    key.K?
  }

  lemma AgreeOnLeadingVariants(key: Key)
    ensures LeadingVariant(key) ==> (Lower(key).Some? <==> Upper(key).Some?)
  {
  }

  lemma AgreeOnTrailingVariants(key: Key)
    ensures !LeadingVariant(key) ==> (Lower(key).Some? <==> Upper(key).Some?)
  {
  }

  /** Both tables type a symbol on the same keys: CapsLock changes which symbol a key
      types, never whether it types one. */
  lemma TablesAgreeOnKeys(key: Key)
    ensures Lower(key).Some? <==> Upper(key).Some?
  {
    AgreeOnLeadingVariants(key);
    AgreeOnTrailingVariants(key);
  }

  /** Neither table types a symbol for Backspace, Enter or CapsLock, the keys the shells
      act on instead. */
  lemma ControlKeysTypeNothing(key: Key)
    ensures key == Backspace || key == Enter || key == CapsLock ==> Lower(key).None? && Upper(key).None?
  {
  }

  /** Space types a space with and without CapsLock. */
  lemma SpaceTypesSpace()
    ensures Lower(Space) == Upper(Space) == Some(' ' as byte)
  {
  }

  /** `symfn(key)`: the table CapsLock selects. */
  function Symbol(upper: bool, key: Key): Option<byte>
  {
    if upper then Upper(key) else Lower(key)
  }

  /** `SHELL_PROMPT`, "jttOS> ". */
  const PROMPT: seq<byte> :=
    ['j' as byte, 't' as byte, 't' as byte, 'O' as byte, 'S' as byte, '>' as byte, ' ' as byte]

  const NEWLINE: byte := '\n' as byte

  /** The prompt colour `0x000ff00` (green) and the text colour `0x00ffffff` (white). */
  const PROMPT_FG: u32 := 0x00_ff00
  const TEXT_FG: u32 := 0x00ff_ffff

  /** A call on the shell's `TextBufferWritter`, in the order the shell makes them. The
      animation of terminal.rs is one opaque command. */
  datatype Command =
    | Clear
    | StepBack
    | SetNextFg(color: u32)
    | Write(bytes: seq<byte>)
    | Animation

  /** Switch to green, write the prompt, switch back to white. */
  const PROMPT_COMMANDS: seq<Command> := [SetNextFg(PROMPT_FG), Write(PROMPT), SetNextFg(TEXT_FG)]

  /** The start of `entry`: clear the screen and show the prompt. */
  const START_COMMANDS: seq<Command> := [Clear] + PROMPT_COMMANDS

  /** Backspace erases a character only to the right of the prompt. */
  function BackspaceCommands(x: nat): seq<Command>
  {
    if x > |PROMPT| then [StepBack] else []
  }

  /** The bytes a run of commands writes, in order. */
  function Written(cmds: seq<Command>): seq<byte>
  {
    if cmds == [] then []
    else (if cmds[0].Write? then cmds[0].bytes else []) + Written(cmds[1..])
  }

  /** Commands written one after the other write their bytes one after the other. */
  lemma {:induction false} WrittenAppends(a: seq<Command>, b: seq<Command>)
    ensures Written(a + b) == Written(a) + Written(b)
    decreases |a|
  {
    if a != [] {
      assert (a + b)[1..] == a[1..] + b;
      WrittenAppends(a[1..], b);
    } else {
      assert a + b == b;
    }
  }
}
