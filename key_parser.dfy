/** The PS/2 scan-code set 2 parser (src/drivers/ps2/parser.rs): a state machine that
    consumes one byte per call, remembers the prefixes it has seen (0xE0 extended,
    0xF0 break, the 0xE1 pause sequence), and produces a key event once a code is
    complete. */
module KeyParser {
  import opened Machine
  import opened Keys

  datatype ParserState = Normal | Extended | UpNormal | UpExtended | PauseKey(index: byte)

  datatype ParseError = Incomplete | Unrecognized | TooManyKeys

  datatype ParseResult = Ok(event: KeyEvent) | Err(error: ParseError)

  /** `map_normal`: the single-byte make codes of scan-code set 2. */
  function MapNormal(scancode: byte): Option<Key>
  {
    match scancode
    case 0x76 => Some(Esc)
    case 0x05 => Some(F1)
    case 0x06 => Some(F2)
    case 0x04 => Some(F3)
    case 0x0C => Some(F4)
    case 0x03 => Some(F5)
    case 0x0B => Some(F6)
    case 0x83 => Some(F7)
    case 0x0A => Some(F8)
    case 0x01 => Some(F9)
    case 0x09 => Some(F10)
    case 0x78 => Some(F11)
    case 0x07 => Some(F12)
    case 0x0E => Some(BackTick)
    case 0x16 => Some(Key1)
    case 0x1E => Some(Key2)
    case 0x26 => Some(Key3)
    case 0x25 => Some(Key4)
    case 0x2E => Some(Key5)
    case 0x36 => Some(Key6)
    case 0x3D => Some(Key7)
    case 0x3E => Some(Key8)
    case 0x46 => Some(Key9)
    case 0x45 => Some(Key0)
    case 0x4E => Some(Minus)
    case 0x55 => Some(Equal)
    case 0x66 => Some(Backspace)
    case 0x0D => Some(Tab)
    case 0x15 => Some(Q)
    case 0x1D => Some(W)
    case 0x24 => Some(E)
    case 0x2D => Some(R)
    case 0x2C => Some(T)
    case 0x35 => Some(Y)
    case 0x3C => Some(U)
    case 0x43 => Some(I)
    case 0x44 => Some(O)
    case 0x4D => Some(P)
    case 0x54 => Some(OpenBracket)
    case 0x5B => Some(CloseBracket)
    case 0x5D => Some(Backslash)
    case 0x58 => Some(CapsLock)
    case 0x1C => Some(A)
    case 0x1B => Some(S)
    case 0x23 => Some(D)
    case 0x2B => Some(F)
    case 0x34 => Some(G)
    case 0x33 => Some(H)
    case 0x3B => Some(J)
    case 0x42 => Some(K)
    case 0x4B => Some(L)
    case 0x4C => Some(SemiColon)
    case 0x52 => Some(SingleQuote)
    case 0x5A => Some(Enter)
    case 0x12 => Some(LeftShift)
    case 0x1A => Some(Z)
    case 0x22 => Some(X)
    case 0x21 => Some(C)
    case 0x2A => Some(V)
    case 0x32 => Some(B)
    case 0x31 => Some(N)
    case 0x3A => Some(M)
    case 0x41 => Some(Comma)
    case 0x49 => Some(Dot)
    case 0x4A => Some(Slash)
    case 0x59 => Some(RightShift)
    case 0x14 => Some(LeftCtrl)
    case 0x11 => Some(LeftAlt)
    case 0x29 => Some(Space)
    case 0x7E => Some(ScrollLock)
    case 0x77 => Some(NumpadLock)
    case 0x7B => Some(NumpadMinus)
    case 0x7C => Some(NumpadStar)
    case 0x79 => Some(NumpadPlus)
    case 0x71 => Some(NumpadDot)
    case 0x70 => Some(Numpad0)
    case 0x69 => Some(Numpad1)
    case 0x72 => Some(Numpad2)
    case 0x7A => Some(Numpad3)
    case 0x6B => Some(Numpad4)
    case 0x73 => Some(Numpad5)
    case 0x74 => Some(Numpad6)
    case 0x6C => Some(Numpad7)
    case 0x75 => Some(Numpad8)
    case 0x7D => Some(Numpad9)
    case _ => None
  }

  /** `map_extended`: the codes that follow an 0xE0 prefix. */
  function MapExtended(scancode: byte): Option<Key>
  {
    match scancode
    case 0x11 => Some(RightAlt)
    case 0x14 => Some(RightCtrl)
    case 0x70 => Some(Insert)
    case 0x6C => Some(Home)
    case 0x7D => Some(PageUp)
    case 0x71 => Some(Delete)
    case 0x69 => Some(End)
    case 0x7A => Some(PageDown)
    case 0x75 => Some(CursorUp)
    case 0x6B => Some(CursorLeft)
    case 0x74 => Some(CursorRight)
    case 0x72 => Some(CursorDown)
    case 0x4A => Some(NumpadSlash)
    case 0x5A => Some(NumpadEnter)
    case 0x1F => Some(LeftMeta)
    case 0x27 => Some(RightMeta)
    case 0x7C => Some(PrintScreen)
    case 0x12 => Some(PrintScreen)
    case 0x77 => Some(Pause)
    case _ => None
  }

  /** The state `parse` moves to when the byte is a prefix or part of the pause
      sequence; Normal when the byte completes (or fails) a code. */
  function NextState(s: ParserState, scancode: byte): ParserState
  {
    match (s, scancode)
    case (Normal, 0xE1) => PauseKey(0)
    case (PauseKey(5), _) => Extended
    case (PauseKey(i), _) => PauseKey((i + 1) % BYTE)
    case (Normal, 0xE0) => Extended
    case (Normal, 0xF0) => UpNormal
    case (Extended, 0xF0) => UpExtended
    case (_, _) => Normal
  }

  /** `KeyParser::parse`: the new state and the result of feeding one byte. */
  function Parse(s: ParserState, scancode: byte): (ParserState, ParseResult)
  {
    if scancode == 0x00 then (s, Err(TooManyKeys))
    else
      var next := NextState(s, scancode);
      if next != Normal then (next, Err(Incomplete))
      else if (s == Extended && scancode == 0x12) || (s == UpExtended && scancode == 0x7C) then
        (s, Err(Incomplete))
      else
        var key := match s
          case Normal => MapNormal(scancode)
          case UpNormal => MapNormal(scancode)
          case Extended => MapExtended(scancode)
          case UpExtended => MapExtended(scancode)
          case PauseKey(_) => Some(F1);
        if key.None? then (s, Err(Unrecognized))
        else
          var event := if s == UpNormal || s == UpExtended then Up(key.value) else Pressed(key.value);
          (Normal, Ok(event))
  }

  /** The states the parser can be in: the pause index never passes 5. */
  predicate Reachable(s: ParserState)
  {
    s.PauseKey? ==> s.index <= 5
  }

  /** Parsing keeps the parser in a reachable state; a result is a key event exactly
      when the parser goes back to Normal from a state other than a pause step, and the
      event is a press unless a break prefix was pending. */
  lemma ParseStaysReachable(s: ParserState, scancode: byte)
    requires Reachable(s)
    ensures var (t, r) := Parse(s, scancode);
      && Reachable(t)
      && (r.Ok? ==> t == Normal && !s.PauseKey?)
      && (r.Ok? ==> (r.event.Up? <==> s == UpNormal || s == UpExtended))
  {
  }

  /** Byte 0x00 is the keyboard's overrun code: an error, and the state stays. */
  lemma OverrunKeepsState(s: ParserState)
    ensures Parse(s, 0x00) == (s, Err(TooManyKeys))
  {
  }

  /** The prefix bytes. */
  lemma PrefixTransitions(s: ParserState)
    requires Reachable(s)
    ensures Parse(Normal, 0xE0) == (Extended, Err(Incomplete))
    ensures Parse(Normal, 0xF0) == (UpNormal, Err(Incomplete))
    ensures Parse(Normal, 0xE1) == (PauseKey(0), Err(Incomplete))
    ensures Parse(Extended, 0xF0) == (UpExtended, Err(Incomplete))
    ensures s.PauseKey? && s.index < 5 ==> forall c: byte :: c != 0 ==> Parse(s, c) == (PauseKey(s.index + 1), Err(Incomplete))
    ensures s == PauseKey(5) ==> forall c: byte :: c != 0 ==> Parse(s, c) == (Extended, Err(Incomplete))
  {
  }

  /** The fake-shift bytes of the extended sequences are swallowed: the result is
      Incomplete and the prefix state is kept. */
  lemma FakeShiftIgnored()
    ensures Parse(Extended, 0x12) == (Extended, Err(Incomplete))
    ensures Parse(UpExtended, 0x7C) == (UpExtended, Err(Incomplete))
  {
  }

  /** A byte no table knows is an error that leaves the state as it was; in particular a
      pending prefix is not dropped. */
  lemma UnknownKeepsState(s: ParserState, c: byte)
    requires c != 0 && NextState(s, c) == Normal
    requires (s == Normal || s == UpNormal) ==> MapNormal(c).None?
    requires (s == Extended || s == UpExtended) ==> MapExtended(c).None?
    requires !s.PauseKey?
    ensures Parse(s, c) == (s, Err(Unrecognized))
  {
  }

  /** The single-byte table knows no code that is a prefix or the overrun byte. */
  lemma MapNormalRange(c: byte)
    ensures MapNormal(c).Some? ==> 0 < c < 0x84
  {
  }

  /** A one-byte make code from Normal gives the key's press, and the same code after the
      break prefix gives its release; the parser is back in Normal after both. */
  lemma MakeAndBreak(c: byte, k: Key)
    requires MapNormal(c) == Some(k)
    ensures Parse(Normal, c) == (Normal, Ok(Pressed(k)))
    ensures Parse(Normal, 0xF0) == (UpNormal, Err(Incomplete))
    ensures Parse(UpNormal, c) == (Normal, Ok(Up(k)))
  {
    MapNormalRange(c);
  }

  /** The Pause key sends E1 14 77 E1 F0 14 F0 77: the parser steps through the pause
      states with seven Incompletes, then reports the press and is back in Normal. */
  lemma PauseSequence()
    ensures Parse(Normal, 0xE1) == (PauseKey(0), Err(Incomplete))
    ensures Parse(PauseKey(0), 0x14) == (PauseKey(1), Err(Incomplete))
    ensures Parse(PauseKey(1), 0x77) == (PauseKey(2), Err(Incomplete))
    ensures Parse(PauseKey(2), 0xE1) == (PauseKey(3), Err(Incomplete))
    ensures Parse(PauseKey(3), 0xF0) == (PauseKey(4), Err(Incomplete))
    ensures Parse(PauseKey(4), 0x14) == (PauseKey(5), Err(Incomplete))
    ensures Parse(PauseKey(5), 0xF0) == (Extended, Err(Incomplete))
    ensures Parse(Extended, 0x77) == (Normal, Ok(Pressed(Pause)))
  {
  }

  /** The parser object; its `Cell<ParserState>` is a mutable field. */
  class Parser {
    var state: ParserState

    /** `KeyParser::new` */
    constructor ()
      ensures state == Normal
    {
      state := Normal;
    }

    method ParseByte(scancode: byte) returns (r: ParseResult)
      modifies this
      ensures (state, r) == Parse(old(state), scancode)
    {
      var next := Parse(state, scancode);
      state := next.0;
      r := next.1;
    }
  }
}
