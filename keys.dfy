/** The keys of a PC keyboard, as the scan-code parser produces them and the shell
    consumes them. The enums that define them (utils/src/key.rs and
    src/drivers/ps2/key.rs) are not part of this model: this datatype has exactly the
    variants the modelled code names. The parser names the bracket keys OpenBracket and
    CloseBracket, the shell tables OpenBrace and CloseBrace; both spellings are kept. */
module Keys {

  datatype Key =
    | Esc | F1 | F2 | F3 | F4 | F5 | F6 | F7 | F8 | F9 | F10 | F11 | F12
    | BackTick | Key1 | Key2 | Key3 | Key4 | Key5 | Key6 | Key7 | Key8 | Key9 | Key0
    | Minus | Equal | Backspace | Tab
    | Q | W | E | R | T | Y | U | I | O | P
    | OpenBracket | CloseBracket | OpenBrace | CloseBrace | Backslash | CapsLock
    | A | S | D | F | G | H | J | K | L | SemiColon | SingleQuote | Enter
    | LeftShift | Z | X | C | V | B | N | M | Comma | Dot | Slash | RightShift
    | LeftCtrl | LeftAlt | Space | RightAlt | RightCtrl | LeftMeta | RightMeta
    | ScrollLock | NumpadLock | NumpadMinus | NumpadStar | NumpadPlus | NumpadDot
    | NumpadSlash | NumpadEnter
    | Numpad0 | Numpad1 | Numpad2 | Numpad3 | Numpad4 | Numpad5 | Numpad6 | Numpad7 | Numpad8 | Numpad9
    | Insert | Home | PageUp | Delete | End | PageDown
    | CursorUp | CursorLeft | CursorRight | CursorDown
    | PrintScreen | Pause

  /** A key going down or coming back up. */
  datatype KeyEvent = Pressed(key: Key) | Up(key: Key)
}
