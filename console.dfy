/** The kernel console of src/console/mod.rs: a cursor and a current foreground and
    background colour over the 80×25 colour text grid. `write_all` handles a newline, an
    `ESC [ d d m` colour selection (ECMA-48 section 8.3.117, SGR, restricted to the
    two-digit codes 30–37, 39, 40–47 and 49) and printable bytes, scrolling the grid when
    the cursor leaves the last row. */
module Console {
  import opened Machine
  import opened ConsoleVga
  import Io

  const ESC: byte := 0x1b
  const NEWLINE: byte := 0x0a
  const LBRACKET: byte := 0x5b
  const LETTER_M: byte := 0x6d

  /** The grid and the console's `State`. */
  datatype ConsoleState = ConsoleState(cells: seq<Character>, x: nat, y: nat, fg: Color, bg: Color)

  predicate Valid(s: ConsoleState)
  {
    |s.cells| == SIZE && s.x < WIDTH && s.y < HEIGHT
  }

  /** The colour the digit after `3` or `4` selects: the eight ANSI colours in order. */
  function AnsiColor(d: byte): Color
    requires '0' as byte <= d <= '7' as byte
  {
    [Black, Red, Green, Yellow, Blue, Magenta, Cyan, White][d - '0' as byte]
  }

  /** The effect of a complete `ESC [ d1 d2 m`. */
  function Select(s: ConsoleState, d1: byte, d2: byte): (r: ConsoleState)
  {
    if d1 == '3' as byte && '0' as byte <= d2 <= '7' as byte then s.(fg := AnsiColor(d2))
    else if d1 == '3' as byte && d2 == '9' as byte then s.(fg := GetFg(DEFAULT_COLORCODE))
    else if d1 == '4' as byte && '0' as byte <= d2 <= '7' as byte then s.(bg := AnsiColor(d2))
    else if d1 == '4' as byte && d2 == '9' as byte then
      DefaultColors();
      s.(bg := GetBg(DEFAULT_COLORCODE).value)
    else s
  }

  /** How many bytes after ESC the escape parsing takes from the iterator: none at the
      end, one when that byte is not `[`, and otherwise up to three more (all three are
      requested together). */
  function EscapeLength(rest: seq<byte>): (n: nat)
    ensures n <= |rest| && n <= 4
  {
    if |rest| == 0 then 0
    else if rest[0] != LBRACKET then 1
    else if |rest| < 4 then |rest|
    else 4
  }

  /** The bytes after ESC form a complete colour selection. */
  predicate IsSgr(rest: seq<byte>)
  {
    |rest| >= 4 && rest[0] == LBRACKET && rest[3] == LETTER_M
  }

  /** Scroll once when the cursor has left the last row. */
  function ScrollIfBelow(s: ConsoleState): (r: ConsoleState)
    requires |s.cells| == SIZE && s.x < WIDTH && s.y <= HEIGHT
    ensures Valid(r)
  {
    if s.y >= HEIGHT then s.(cells := Scrolled(s.cells), y := s.y - 1) else s
  }

  /** A printable byte: stored under the cursor in the current colours, then the cursor
      moves one cell on, to the next row after column 79. */
  function Put(s: ConsoleState, b: byte): (r: ConsoleState)
    requires Valid(s)
    ensures |r.cells| == SIZE && r.x < WIDTH && r.y <= HEIGHT
  {
    var x := s.x + 1;
    s.(cells := s.cells[s.x + s.y * WIDTH := Character(b, ColorCodeNew(s.fg, s.bg))],
       x := x % WIDTH, y := s.y + x / WIDTH)
  }

  /** `write_all(buf)` on the console state. */
  function Write(s: ConsoleState, buf: seq<byte>): (r: ConsoleState)
    requires Valid(s)
    ensures Valid(r)
    decreases |buf|
  {
    if buf == [] then s
    else if buf[0] == NEWLINE then Write(ScrollIfBelow(s.(x := 0, y := s.y + 1)), buf[1..])
    else if buf[0] == ESC then
      var rest := buf[1..];
      var t := if IsSgr(rest) then Select(s, rest[1], rest[2]) else s;
      Write(t, rest[EscapeLength(rest)..])
    else Write(ScrollIfBelow(Put(s, buf[0])), buf[1..])
  }

  /** A newline moves to column 0 of the next row, scrolling from the last row; it writes
      no cell otherwise. */
  lemma NewlineStep(s: ConsoleState, rest: seq<byte>)
    requires Valid(s)
    ensures var t := ScrollIfBelow(s.(x := 0, y := s.y + 1));
      && Write(s, [NEWLINE] + rest) == Write(t, rest)
      && t.x == 0 && t.fg == s.fg && t.bg == s.bg
      && (s.y < HEIGHT - 1 ==> t.y == s.y + 1 && t.cells == s.cells)
      && (s.y == HEIGHT - 1 ==> t.y == HEIGHT - 1 && t.cells == Scrolled(s.cells))
  {
    assert ([NEWLINE] + rest)[1..] == rest;
  }

  /** A printable byte is stored at (x, y) in the current colours and the cursor moves one
      cell on; past the last cell the grid scrolls and the cursor is at the start of the
      last row. */
  lemma PrintableStep(s: ConsoleState, b: byte, rest: seq<byte>)
    requires Valid(s) && b != NEWLINE && b != ESC
    ensures var t := ScrollIfBelow(Put(s, b));
      var drawn := s.cells[s.x + s.y * WIDTH := Character(b, ColorCodeNew(s.fg, s.bg))];
      && Write(s, [b] + rest) == Write(t, rest)
      && t.fg == s.fg && t.bg == s.bg
      && (s.x < WIDTH - 1 ==> t.x == s.x + 1 && t.y == s.y && t.cells == drawn)
      && (s.x == WIDTH - 1 && s.y < HEIGHT - 1 ==> t.x == 0 && t.y == s.y + 1 && t.cells == drawn)
      && (s.x == WIDTH - 1 && s.y == HEIGHT - 1 ==> t.x == 0 && t.y == HEIGHT - 1 && t.cells == Scrolled(drawn))
  {
    assert ([b] + rest)[1..] == rest;
  }

  /** `ESC [ d1 d2 m` writes no cell and moves no cursor; 30–37 and 40–47 select the
      foreground and background, 39 and 49 restore white and black, and any other pair is
      ignored. */
  lemma SgrStep(s: ConsoleState, d1: byte, d2: byte, rest: seq<byte>)
    requires Valid(s)
    ensures var t := Select(s, d1, d2);
      && Write(s, [ESC, LBRACKET, d1, d2, LETTER_M] + rest) == Write(t, rest)
      && t.cells == s.cells && t.x == s.x && t.y == s.y
      && (d1 == '3' as byte && '0' as byte <= d2 <= '7' as byte ==> t.fg == AnsiColor(d2) && t.bg == s.bg)
      && (d1 == '3' as byte && d2 == '9' as byte ==> t.fg == White && t.bg == s.bg)
      && (d1 == '4' as byte && '0' as byte <= d2 <= '7' as byte ==> t.bg == AnsiColor(d2) && t.fg == s.fg)
      && (d1 == '4' as byte && d2 == '9' as byte ==> t.bg == Black && t.fg == s.fg)
      && (!(d1 == '3' as byte || d1 == '4' as byte) || !('0' as byte <= d2 <= '7' as byte || d2 == '9' as byte) ==> t == s)
  {
    var buf := [ESC, LBRACKET, d1, d2, LETTER_M] + rest;
    assert buf[1..][5 - 1..] == rest;
    assert buf[1..][..4] == [LBRACKET, d1, d2, LETTER_M];
    DefaultColors();
  }

  /** An ESC that does not start a complete colour selection draws nothing, changes no
      colour and drops the bytes the parsing took: the next byte when it is not `[`, and
      otherwise the `[` and up to three more. */
  lemma MalformedEscape(s: ConsoleState, rest: seq<byte>)
    requires Valid(s) && !IsSgr(rest)
    ensures Write(s, [ESC] + rest) == Write(s, rest[EscapeLength(rest)..])
    ensures |rest| > 0 && rest[0] != LBRACKET ==> EscapeLength(rest) == 1
    ensures |rest| > 0 && rest[0] == LBRACKET ==> EscapeLength(rest) == if |rest| < 4 then |rest| else 4
  {
    assert ([ESC] + rest)[1..] == rest;
  }

  /** The prefixes and suffix the `green!`, `yellow!` and `red!` macros wrap a text in. */
  const GREEN: seq<byte> := [ESC, LBRACKET, '3' as byte, '2' as byte, LETTER_M]
  const YELLOW: seq<byte> := [ESC, LBRACKET, '3' as byte, '3' as byte, LETTER_M]
  const RED: seq<byte> := [ESC, LBRACKET, '3' as byte, '1' as byte, LETTER_M]
  const DEFAULT_FG: seq<byte> := [ESC, LBRACKET, '3' as byte, '9' as byte, LETTER_M]

  /** The macro sequences only change the foreground colour: green, yellow, red, and back
      to white. */
  lemma MacroSequences(s: ConsoleState, rest: seq<byte>)
    requires Valid(s)
    ensures Write(s, GREEN + rest) == Write(s.(fg := Green), rest)
    ensures Write(s, YELLOW + rest) == Write(s.(fg := Yellow), rest)
    ensures Write(s, RED + rest) == Write(s.(fg := Red), rest)
    ensures Write(s, DEFAULT_FG + rest) == Write(s.(fg := White), rest)
  {
    SgrStep(s, '3' as byte, '2' as byte, rest);
    SgrStep(s, '3' as byte, '3' as byte, rest);
    SgrStep(s, '3' as byte, '1' as byte, rest);
    SgrStep(s, '3' as byte, '9' as byte, rest);
  }

  /** Writing a concatenation is writing its parts in turn, as long as the first part
      does not end inside an escape sequence. */
  lemma {:induction false} WriteSplits(s: ConsoleState, a: seq<byte>, b: seq<byte>)
    requires Valid(s)
    requires forall i :: 0 <= i < |a| ==> a[i] != ESC
    ensures Write(s, a + b) == Write(Write(s, a), b)
    decreases |a|
  {
    if a != [] {
      assert (a + b)[1..] == a[1..] + b;
      var t := if a[0] == NEWLINE then ScrollIfBelow(s.(x := 0, y := s.y + 1)) else ScrollIfBelow(Put(s, a[0]));
      WriteSplits(t, a[1..], b);
    } else {
      assert a + b == b;
    }
  }

  /** `Console`: the text grid and the state. */
  class Console {
    const output: TextMode80x25
    var x: nat
    var y: nat
    var fg: Color
    var bg: Color

    function State(): ConsoleState
      reads this, output, output.buffer
    {
      ConsoleState(output.buffer[..], x, y, fg, bg)
    }

    predicate Ready()
      reads this, output, output.buffer
    {
      output.buffer.Length == SIZE && Valid(State())
    }

    /** `Console::new()`: the cursor at the top left, the colours those of the default
        attribute (white on black); the grid keeps what the screen shows. */
    constructor (screen: seq<Character>)
      requires |screen| == SIZE
      ensures Ready() && fresh(output) && fresh(output.buffer)
      ensures State() == ConsoleState(screen, 0, 0, White, Black)
    {
      output := new TextMode80x25(screen);
      x, y := 0, 0;
      DefaultColors();
      fg := GetFg(DEFAULT_COLORCODE);
      bg := GetBg(DEFAULT_COLORCODE).value;
    }

    /** `clear()`: the cursor back to the top left, every cell the default character. */
    method Clear()
      requires Ready()
      modifies this, output.buffer
      ensures Ready()
      ensures State() == old(State()).(cells := seq(SIZE, _ => DEFAULT_CHAR), x := 0, y := 0)
    {
      x, y := 0, 0;
      output.Clear();
    }

    /** The bottom of `write_all`'s loop. */
    method ScrollIfBelowNow()
      requires output.buffer.Length == SIZE && x < WIDTH && y <= HEIGHT
      modifies this, output.buffer
      ensures Ready() && State() == ScrollIfBelow(old(State()))
    {
      if y >= HEIGHT {
        output.ScrollDown();
        y := y - 1;
      }
    }

    /** A newline, then the scroll check. */
    method NewlineNow()
      requires Ready()
      modifies this, output.buffer
      ensures Ready() && State() == ScrollIfBelow(old(State()).(x := 0, y := old(y) + 1))
    {
      x := 0;
      y := y + 1;
      ScrollIfBelowNow();
    }

    /** A printable byte, then the scroll check. */
    method PutNow(b: byte)
      requires Ready()
      modifies this, output.buffer
      ensures Ready() && State() == ScrollIfBelow(Put(old(State()), b))
    {
      output.SetCharacter(Character(b, ColorCodeNew(fg, bg)), x, y);
      x := x + 1;
      y := y + x / WIDTH;
      x := x % WIDTH;
      ScrollIfBelowNow();
    }

    /** The colour selection of a complete escape. */
    method SelectNow(d1: byte, d2: byte)
      requires Ready()
      modifies this
      ensures Ready() && State() == Select(old(State()), d1, d2)
    {
      if d1 == '3' as byte && '0' as byte <= d2 <= '7' as byte {
        fg := AnsiColor(d2);
      } else if d1 == '3' as byte && d2 == '9' as byte {
        fg := GetFg(DEFAULT_COLORCODE);
      } else if d1 == '4' as byte && '0' as byte <= d2 <= '7' as byte {
        bg := AnsiColor(d2);
      } else if d1 == '4' as byte && d2 == '9' as byte {
        DefaultColors();
        bg := GetBg(DEFAULT_COLORCODE).value;
      }
    }

    /** The escape branch, entered with `buf[i..]` the bytes after ESC: returns where the
        iterator is left. */
    method EscapeNow(buf: seq<byte>, i: nat) returns (j: nat)
      requires Ready() && i <= |buf|
      modifies this
      ensures Ready()
      ensures State() == (if IsSgr(buf[i..]) then Select(old(State()), buf[i + 1], buf[i + 2]) else old(State()))
      ensures j == i + EscapeLength(buf[i..])
    {
      j := i;
      if j < |buf| && buf[j] == LBRACKET {
        j := j + 1;
        if j + 3 <= |buf| && buf[j + 2] == LETTER_M {
          SelectNow(buf[j], buf[j + 1]);
        }
        j := if j + 3 <= |buf| then j + 3 else |buf|;
      } else if j < |buf| {
        j := j + 1;
      }
    }

    /** `write_all(buf)`: always `Ok(())`. */
    method WriteAll(buf: seq<byte>) returns (r: Io.IoResult<()>)
      requires Ready()
      modifies this, output.buffer
      ensures Ready() && State() == Write(old(State()), buf) && r == Io.Ok(())
    {
      var i := 0;
      while i < |buf|
        invariant 0 <= i <= |buf|
        invariant Ready()
        invariant Write(State(), buf[i..]) == Write(old(State()), buf)
      {
        var b := buf[i];
        assert buf[i..][1..] == buf[i + 1..];
        if b == NEWLINE {
          NewlineNow();
          i := i + 1;
        } else if b == ESC {
          i := EscapeNow(buf, i + 1);
        } else {
          PutNow(b);
          i := i + 1;
        }
      }
      r := Io.Ok(());
    }
  }
}
