/** The colour text mode of src/console/vga.rs: sixteen colours, the attribute byte
    packing a foreground colour into the low nibble and a background colour into the high
    nibble, and an 80×25 grid of (code, attribute) cells that can be written, scrolled and
    cleared. */
module ConsoleVga {
  import opened Machine

  const WIDTH: nat := 80
  const HEIGHT: nat := 25
  const SIZE: nat := WIDTH * HEIGHT

  datatype Color =
    | Black | Blue | Green | Cyan | Red | Magenta | Brown | LightGrey
    | DarkGrey | LightBlue | LightGreen | LightCyan | LightRed | Pink | Yellow | White

  /** `color as u8` */
  function ToU8(c: Color): (v: byte)
    ensures v < 16
  {
    match c
    case Black => 0 case Blue => 1 case Green => 2 case Cyan => 3
    case Red => 4 case Magenta => 5 case Brown => 6 case LightGrey => 7
    case DarkGrey => 8 case LightBlue => 9 case LightGreen => 10 case LightCyan => 11
    case LightRed => 12 case Pink => 13 case Yellow => 14 case White => 15
  }

  /** `Color::from_u8` */
  function FromU8(v: byte): Option<Color>
  {
    match v
    case 0 => Some(Black) case 1 => Some(Blue) case 2 => Some(Green) case 3 => Some(Cyan)
    case 4 => Some(Red) case 5 => Some(Magenta) case 6 => Some(Brown) case 7 => Some(LightGrey)
    case 8 => Some(DarkGrey) case 9 => Some(LightBlue) case 10 => Some(LightGreen)
    case 11 => Some(LightCyan) case 12 => Some(LightRed) case 13 => Some(Pink)
    case 14 => Some(Yellow) case 15 => Some(White)
    case _ => None
  }

  /** `from_u8` is defined exactly on 0..=15 and is the inverse of `as u8` there. */
  lemma FromU8Inverts(v: byte, c: Color)
    ensures FromU8(v).Some? <==> v < 16
    ensures FromU8(ToU8(c)) == Some(c)
    ensures FromU8(v) == Some(c) ==> ToU8(c) == v
  {
  }

  /** A `ColorCode` is its attribute byte. */
  type ColorCode = byte

  /** `ColorCode::new(fg, bg)`: `bg << 4 | fg`; the two nibbles do not overlap, so the
      `|` is an addition. */
  function ColorCodeNew(fg: Color, bg: Color): ColorCode
  {
    ToU8(bg) * 16 + ToU8(fg)
  }

  /** `set_fg`: clear the low nibble, then or in the colour. */
  function SetFg(code: ColorCode, fg: Color): ColorCode
  {
    (code / 16) * 16 + ToU8(fg)
  }

  /** `set_bg`: clear the high nibble, then or in the colour shifted up. */
  function SetBg(code: ColorCode, bg: Color): ColorCode
  {
    ToU8(bg) * 16 + code % 16
  }

  /** `get_fg`: the low nibble is always a colour, so the `unwrap` never panics. */
  function GetFg(code: ColorCode): Color
  {
    FromU8(code % 16).value
  }

  /** `get_bg` as written: `from_u8(code & 0xf0)`, not shifted down; None is the panic
      of the `unwrap`. */
  function GetBg(code: ColorCode): Option<Color>
  {
    FromU8(code - code % 16)
  }

  /** `get_bg` as evidently intended: the high nibble shifted down. */
  function GetBgCorrected(code: ColorCode): Color
  {
    FromU8(code / 16).value
  }

  /** `new` packs the background in the high nibble and the foreground in the low one,
      and `get_fg` reads the foreground back. */
  lemma ColorCodeLayout(fg: Color, bg: Color)
    ensures ColorCodeNew(fg, bg) / 16 == ToU8(bg) && ColorCodeNew(fg, bg) % 16 == ToU8(fg)
    ensures GetFg(ColorCodeNew(fg, bg)) == fg
  {
    FromU8Inverts(ToU8(fg), fg);
  }

  /** `set_fg` changes only the low nibble and `set_bg` only the high nibble. */
  lemma SettersTouchOneNibble(code: ColorCode, c: Color)
    ensures SetFg(code, c) / 16 == code / 16 && SetFg(code, c) % 16 == ToU8(c)
    ensures SetBg(code, c) % 16 == code % 16 && SetBg(code, c) / 16 == ToU8(c)
    ensures GetFg(SetFg(code, c)) == c && GetBgCorrected(SetBg(code, c)) == c
  {
    FromU8Inverts(ToU8(c), c);
  }

  /** As written, `get_bg` of a packed code succeeds only for a black background; every
      other background makes the `unwrap` panic. */
  lemma GetBgPanicsUnlessBlack(fg: Color, bg: Color)
    ensures GetBg(ColorCodeNew(fg, bg)).Some? <==> bg == Black
    ensures bg == Black ==> GetBg(ColorCodeNew(fg, bg)) == Some(Black)
  {
    ColorCodeLayout(fg, bg);
    GetBgReadsUnshifted(ColorCodeNew(fg, bg), ToU8(bg));
    HighNibbleColor(ToU8(bg));
    BlackIsZero(bg);
  }

  /** `get_bg` as written looks up the high nibble times 16. */
  lemma GetBgReadsUnshifted(code: ColorCode, n: nat)
    requires code / 16 == n
    ensures n < 16 && GetBg(code) == FromU8(n * 16)
  {
  }

  /** A high nibble read without the shift is a colour only when it is zero, and zero is
      black. */
  lemma HighNibbleColor(n: nat)
    requires n < 16
    ensures FromU8(n * 16).Some? <==> n == 0
    ensures n == 0 ==> FromU8(n * 16) == Some(Black)
  {
  }

  /** Black is the only colour numbered 0. */
  lemma BlackIsZero(c: Color)
    ensures ToU8(c) == 0 <==> c == Black
  {
  }

  /** The corrected `get_bg` reads back the background of every packed code. */
  lemma GetBgCorrectedInverts(fg: Color, bg: Color)
    ensures GetBgCorrected(ColorCodeNew(fg, bg)) == bg
  {
    ColorCodeLayout(fg, bg);
    FromU8Inverts(ToU8(bg), bg);
  }

  datatype Character = Character(code: byte, color: ColorCode)

  /** `DEFAULT_COLORCODE`: white on black. */
  const DEFAULT_COLORCODE: ColorCode := ColorCodeNew(White, Black)

  /** `Character::default()` */
  const DEFAULT_CHAR: Character := Character(0, DEFAULT_COLORCODE)

  /** The default attribute is 0x0f, and the two getters give white and black on it (the
      black background is the one `get_bg` handles). */
  lemma DefaultColors()
    ensures DEFAULT_COLORCODE == 0x0f
    ensures GetFg(DEFAULT_COLORCODE) == White && GetBg(DEFAULT_COLORCODE) == Some(Black)
  {
    GetBgPanicsUnlessBlack(White, Black);
  }

  /** The grid after `scroll_down`: every row moves up by one and the last row is blank. */
  function Scrolled(cells: seq<Character>): (r: seq<Character>)
    requires |cells| == SIZE
    ensures |r| == SIZE
    ensures forall i :: 0 <= i < SIZE - WIDTH ==> r[i] == cells[i + WIDTH]
    ensures forall i :: SIZE - WIDTH <= i < SIZE ==> r[i] == DEFAULT_CHAR
  {
    cells[WIDTH..] + seq(WIDTH, _ => DEFAULT_CHAR)
  }

  /** `TextMode80x25`: the 2000 cells at 0xb8000 as an array. */
  class TextMode80x25 {
    const buffer: array<Character>

    /** `new()`: the grid keeps what the screen shows, given here as `screen`. */
    constructor (screen: seq<Character>)
      requires |screen| == SIZE
      ensures fresh(buffer) && buffer[..] == screen
    {
      buffer := new Character[SIZE](i requires 0 <= i < SIZE => screen[i]);
      new;
      assert buffer[..] == screen;
    }

    /** `set_character`: writes cell x + 80·y and nothing else. The source writes through
        a raw pointer; a cell outside the grid is not its to write. */
    method SetCharacter(ch: Character, x: nat, y: nat)
      requires buffer.Length == SIZE && x + y * WIDTH < SIZE
      modifies buffer
      ensures buffer[..] == old(buffer[..])[x + y * WIDTH := ch]
    {
      buffer[x + y * WIDTH] := ch;
    }

    /** `scroll_down`: rows 1..24 are copied up one row, cell by cell, then row 24 is
        filled with the default character. */
    method ScrollDown()
      requires buffer.Length == SIZE
      modifies buffer
      ensures buffer[..] == Scrolled(old(buffer[..]))
    {
      var y := 0;
      while y < HEIGHT - 1
        invariant 0 <= y <= HEIGHT - 1
        invariant forall i :: 0 <= i < y * WIDTH ==> buffer[i] == old(buffer[i + WIDTH])
        invariant forall i :: y * WIDTH <= i < SIZE ==> buffer[i] == old(buffer[i])
      {
        var x := 0;
        while x < WIDTH
          invariant 0 <= x <= WIDTH
          invariant forall i :: 0 <= i < y * WIDTH + x ==> buffer[i] == old(buffer[i + WIDTH])
          invariant forall i :: y * WIDTH + x <= i < SIZE ==> buffer[i] == old(buffer[i])
        {
          buffer[x + y * WIDTH] := buffer[x + (y + 1) * WIDTH];
          x := x + 1;
        }
        y := y + 1;
      }
      var x := 0;
      while x < WIDTH
        invariant 0 <= x <= WIDTH
        invariant forall i :: 0 <= i < SIZE - WIDTH ==> buffer[i] == old(buffer[i + WIDTH])
        invariant forall i :: SIZE - WIDTH <= i < SIZE - WIDTH + x ==> buffer[i] == DEFAULT_CHAR
        invariant forall i :: SIZE - WIDTH + x <= i < SIZE ==> buffer[i] == old(buffer[i])
      {
        buffer[x + (HEIGHT - 1) * WIDTH] := DEFAULT_CHAR;
        x := x + 1;
      }
      assert buffer[..] == Scrolled(old(buffer[..]));
    }

    /** `clear`: every cell becomes the default character. */
    method Clear()
      requires buffer.Length == SIZE
      modifies buffer
      ensures buffer[..] == seq(SIZE, _ => DEFAULT_CHAR)
    {
      var i := 0;
      while i < SIZE
        invariant 0 <= i <= SIZE
        invariant forall j :: 0 <= j < i ==> buffer[j] == DEFAULT_CHAR
      {
        buffer[i] := DEFAULT_CHAR;
        i := i + 1;
      }
      assert buffer[..] == seq(SIZE, _ => DEFAULT_CHAR);
    }
  }
}
