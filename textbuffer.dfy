/** The framebuffer text console of utils/src/textbuffer.rs: an 80×25 grid of 8×16-pixel
    character cells drawn into a linear framebuffer of 32-bit pixels, row after row of
    `width` pixels, and a writer that keeps a cursor and the colours for the next glyph.
    The bitmap font (utils/src/font.rs) is not part of this model: `font(i)` is byte `i`
    of it, sixteen bytes per character, most significant bit leftmost. */
module TextBuffer {
  import opened Machine

  const WIDTH_SYMBOLS: nat := 80
  const HEIGHT_SYMBOLS: nat := 25
  const GLYPH_WIDTH: nat := 8
  const GLYPH_HEIGHT: nat := 16
  /** Pixel rows covering the text grid. */
  const TEXT_ROWS: nat := HEIGHT_SYMBOLS * GLYPH_HEIGHT

  // ---- pixel geometry ----

  /** Whether bit `7 - col` of a font byte is set, i.e. `font_byte & (1 << (7 - col)) != 0`. */
  predicate FontBit(b: byte, col: nat)
    requires col < GLYPH_WIDTH
  {
    b / [128, 64, 32, 16, 8, 4, 2, 1][col] % 2 == 1
  }

  /** Pixel (px, py) lies in the character cell at column x, row y. */
  predicate InCell(px: nat, py: nat, x: nat, y: nat)
  {
    x * GLYPH_WIDTH <= px < x * GLYPH_WIDTH + GLYPH_WIDTH && y * GLYPH_HEIGHT <= py < y * GLYPH_HEIGHT + GLYPH_HEIGHT
  }

  /** The colour glyph `ch` gives pixel (col, row) of its cell. */
  function GlyphColor(font: nat -> byte, ch: byte, col: nat, row: nat, fg: u32, bg: u32): u32
    requires col < GLYPH_WIDTH
  {
    if FontBit(font(ch * GLYPH_HEIGHT + row), col) then fg else bg
  }

  /** Pixel (px, py) after `put(x, y, ch, fg, bg)`, given its colour `before`. */
  function PutPixel(before: u32, px: nat, py: nat, x: nat, y: nat, ch: byte, fg: u32, bg: u32, font: nat -> byte): u32
  {
    if InCell(px, py, x, y) then GlyphColor(font, ch, px - x * GLYPH_WIDTH, py - y * GLYPH_HEIGHT, fg, bg)
    else before
  }

  /** Pixel `i` of a `width`-wide framebuffer after `put(x, y, ch, fg, bg)`. */
  function PutAt(before: u32, i: nat, width: nat, x: nat, y: nat, ch: byte, fg: u32, bg: u32, font: nat -> byte): u32
  {
    if width == 0 then before else PutPixel(before, i % width, i / width, x, y, ch, fg, bg, font)
  }

  lemma MulMonotone(a: nat, b: nat, w: nat)
    requires a <= b
    ensures a * w <= b * w
  {
  }

  /** The row arithmetic of `scroll_down`'s copy loop at pixel row `y`. */
  lemma {:induction false} RowStep(y: nat, width: nat)
    requires y < TEXT_ROWS - GLYPH_HEIGHT
    ensures (y + GLYPH_HEIGHT) * width == y * width + GLYPH_HEIGHT * width
    ensures (y + 1) * width == y * width + width
    ensures y * width + width + GLYPH_HEIGHT * width <= TEXT_ROWS * width
  {
    MulMonotone(y + GLYPH_HEIGHT + 1, TEXT_ROWS, width);
    assert (y + GLYPH_HEIGHT + 1) * width == y * width + width + GLYPH_HEIGHT * width;
  }

  /** The linear index of pixel (px, py) has column px and row py. */
  lemma {:induction false} PixelIndex(width: nat, px: nat, py: nat)
    requires px < width
    ensures (py * width + px) / width == py && (py * width + px) % width == px
  {
    var i := py * width + px;
    var q, r := i / width, i % width;
    assert i == q * width + r && r < width;
    if q < py {
      MulMonotone(q + 1, py, width);
      assert false;
    } else if q > py {
      MulMonotone(py + 1, q, width);
      assert false;
    }
  }

  lemma {:induction false} IndexInRange(width: nat, height: nat, px: nat, py: nat)
    requires px < width && py < height
    ensures py * width + px < width * height
  {
    assert py * width + px < (py + 1) * width <= height * width;
  }

  /** A linear index is determined by its column and row, and lies in its row range. */
  lemma {:induction false} IndexOfPixel(width: nat, height: nat, i: nat)
    requires 0 < width && i < width * height
    ensures i == (i / width) * width + i % width && i / width < height
  {
  }

  /** The framebuffer `s` after `put(x, y, ch, fg, bg)`. */
  function Painted(s: seq<u32>, width: nat, x: nat, y: nat, ch: byte, fg: u32, bg: u32, font: nat -> byte): (r: seq<u32>)
    ensures |r| == |s|
  {
    seq(|s|, i requires 0 <= i < |s| => PutAt(s[i], i, width, x, y, ch, fg, bg, font))
  }

  /** Put in pixel coordinates: a pixel of the glyph's cell takes the glyph's colour there,
      foreground exactly where the font bit is set; every other pixel keeps its colour. */
  lemma PaintedPixel(s: seq<u32>, width: nat, height: nat, x: nat, y: nat, ch: byte, fg: u32, bg: u32,
                     font: nat -> byte, px: nat, py: nat)
    requires |s| == width * height && px < width && py < height
    ensures py * width + px < |s|
    ensures var c := Painted(s, width, x, y, ch, fg, bg, font)[py * width + px];
      && (!InCell(px, py, x, y) ==> c == s[py * width + px])
      && (InCell(px, py, x, y) ==>
            (c == fg <== FontBit(font(ch * GLYPH_HEIGHT + (py - y * GLYPH_HEIGHT)), px - x * GLYPH_WIDTH))
            && (c == bg <== !FontBit(font(ch * GLYPH_HEIGHT + (py - y * GLYPH_HEIGHT)), px - x * GLYPH_WIDTH)))
  {
    IndexInRange(width, height, px, py);
    PixelIndex(width, px, py);
  }

  /** Scrolling in pixel coordinates: pixel rows 16..399 move up sixteen rows, the last
      text row turns black and the pixel rows below the text grid stay. */
  lemma ScrolledPixel(s: seq<u32>, width: nat, height: nat, px: nat, py: nat)
    requires |s| == width * height && height >= TEXT_ROWS && px < width && py < height
    ensures py * width + px < |s|
    ensures py < TEXT_ROWS - GLYPH_HEIGHT ==>
      (py + GLYPH_HEIGHT) * width + px < |s| &&
      Scrolled(s, width)[py * width + px] == s[(py + GLYPH_HEIGHT) * width + px]
    ensures TEXT_ROWS - GLYPH_HEIGHT <= py < TEXT_ROWS ==> Scrolled(s, width)[py * width + px] == 0
    ensures TEXT_ROWS <= py ==> Scrolled(s, width)[py * width + px] == s[py * width + px]
  {
    IndexInRange(width, height, px, py);
    MulMonotone(TEXT_ROWS, height, width);
    if py < TEXT_ROWS - GLYPH_HEIGHT {
      RowStep(py, width);
      assert py * width + px < (TEXT_ROWS - GLYPH_HEIGHT) * width by {
        MulMonotone(py + 1, TEXT_ROWS - GLYPH_HEIGHT, width);
      }
    } else if py < TEXT_ROWS {
      MulMonotone(TEXT_ROWS - GLYPH_HEIGHT, py, width);
      assert py * width + px < TEXT_ROWS * width by {
        MulMonotone(py + 1, TEXT_ROWS, width);
      }
    } else {
      MulMonotone(TEXT_ROWS, py, width);
    }
  }

  /** Whether `put`'s loops have drawn pixel `i` once they reach glyph row `row`,
      column `col`. */
  predicate Drawn(i: nat, width: nat, x: nat, y: nat, row: nat, col: nat)
  {
    && width > 0
    && InCell(i % width, i / width, x, y)
    && (i / width - y * GLYPH_HEIGHT < row || (i / width - y * GLYPH_HEIGHT == row && i % width - x * GLYPH_WIDTH < col))
  }

  /** The framebuffer `s` after `scroll_down`. */
  function Scrolled(s: seq<u32>, width: nat): (r: seq<u32>)
    requires |s| >= TEXT_ROWS * width
    ensures |r| == |s|
  {
    seq(|s|, i requires 0 <= i < |s| =>
      if i < (TEXT_ROWS - GLYPH_HEIGHT) * width then s[i + GLYPH_HEIGHT * width]
      else if i < TEXT_ROWS * width then 0
      else s[i])
  }

  /** A framebuffer whose first `lo` pixels are those `shift` further on, whose next
      `shift` pixels are black and whose rest is unchanged is the scrolled one. */
  lemma ScrolledFrom(before: seq<u32>, after: seq<u32>, width: nat, lo: nat, shift: nat)
    requires lo == (TEXT_ROWS - GLYPH_HEIGHT) * width && shift == GLYPH_HEIGHT * width
    requires |before| == |after| >= lo + shift
    requires forall i :: 0 <= i < lo ==> after[i] == before[i + shift]
    requires forall i :: lo <= i < |after| ==> after[i] == (if i < lo + shift then 0 else before[i])
    ensures after == Scrolled(before, width)
  {
    assert lo + shift == TEXT_ROWS * width;
  }

  /** `TextBuffer`: the framebuffer `fb` it draws into. */
  class Screen {
    const width: nat
    const height: nat
    const pixels: array<u32>

    predicate Valid()
      reads this
    {
      pixels.Length == width * height
    }

    constructor (width: nat, height: nat)
      ensures Valid() && this.width == width && this.height == height && fresh(pixels)
    {
      this.width, this.height := width, height;
      pixels := new u32[width * height];
    }

    /** `clear`: every pixel black. */
    method Clear()
      requires Valid()
      modifies pixels
      ensures pixels[..] == seq(width * height, _ => 0)
    {
      var i := 0;
      while i < width * height
        invariant 0 <= i <= width * height
        invariant forall j :: 0 <= j < i ==> pixels[j] == 0
      {
        pixels[i] := 0;
        i := i + 1;
      }
    }

    /** `put(x, y, ch, fg, bg)`: draws the glyph into the pixels of cell (x, y) that lie
        inside the framebuffer, and touches no other pixel. */
    method Put(x: nat, y: nat, ch: byte, fg: u32, bg: u32, font: nat -> byte)
      requires Valid()
      modifies pixels
      ensures pixels[..] == Painted(old(pixels[..]), width, x, y, ch, fg, bg, font)
    {
      ghost var before := pixels[..];
      var row := 0;
      while row < GLYPH_HEIGHT
        invariant 0 <= row <= GLYPH_HEIGHT
        invariant forall i :: 0 <= i < pixels.Length ==>
          pixels[i] == (if Drawn(i, width, x, y, row, 0) then PutAt(before[i], i, width, x, y, ch, fg, bg, font) else before[i])
      {
        var fontByte := font(ch * GLYPH_HEIGHT + row);
        var col := 0;
        while col < GLYPH_WIDTH
          invariant 0 <= col <= GLYPH_WIDTH
          invariant forall i :: 0 <= i < pixels.Length ==>
            pixels[i] == (if Drawn(i, width, x, y, row, col) then PutAt(before[i], i, width, x, y, ch, fg, bg, font) else before[i])
        {
          var px := x * GLYPH_WIDTH + col;
          var py := y * GLYPH_HEIGHT + row;
          if px < width && py < height {
            var idx := py * width + px;
            PixelIndex(width, px, py);
            IndexInRange(width, height, px, py);
            var color := if FontBit(fontByte, col) then fg else bg;
            pixels[idx] := color;
            forall i | 0 <= i < pixels.Length
              ensures pixels[i] == (if Drawn(i, width, x, y, row, col + 1) then PutAt(before[i], i, width, x, y, ch, fg, bg, font) else before[i])
            {
              IndexOfPixel(width, height, i);
            }
          } else {
            forall i | 0 <= i < pixels.Length
              ensures pixels[i] == (if Drawn(i, width, x, y, row, col + 1) then PutAt(before[i], i, width, x, y, ch, fg, bg, font) else before[i])
            {
              if width > 0 {
                IndexOfPixel(width, height, i);
              }
            }
          }
          col := col + 1;
        }
        row := row + 1;
      }
    }

    /** `scroll_down`: the text rows 1..24 move up one row (sixteen pixel rows) and text
        row 24 turns black. The source writes past the framebuffer when it is shorter than
        the 400 pixel rows of the text grid; such framebuffers are excluded here. */
    method ScrollDown()
      requires Valid() && height >= TEXT_ROWS
      modifies pixels
      ensures pixels[..] == Scrolled(old(pixels[..]), width)
    {
      ghost var before := pixels[..];
      ghost var shift := GLYPH_HEIGHT * width;
      MulMonotone(TEXT_ROWS, height, width);
      var linesToCopy := (HEIGHT_SYMBOLS - 1) * GLYPH_HEIGHT;
      var y := 0;
      ghost var rowStart := 0;
      while y < linesToCopy
        invariant 0 <= y <= linesToCopy && rowStart == y * width
        invariant forall i :: 0 <= i < rowStart ==> i + shift < |before| && pixels[i] == before[i + shift]
        invariant forall i :: rowStart <= i < pixels.Length ==> pixels[i] == before[i]
      {
        RowStep(y, width);
        CopyRow(y, rowStart, shift, before);
        y := y + 1;
        rowStart := rowStart + width;
      }
      var lastRowStart := (HEIGHT_SYMBOLS - 1) * GLYPH_HEIGHT * width;
      Blank(lastRowStart, GLYPH_HEIGHT * width);
      ScrolledFrom(before, pixels[..], width, lastRowStart, shift);
    }

    /** One pass of `scroll_down`'s copy loop: pixel row `y`, which starts at index
        `start`, takes the pixels of row `y + 16`, left to right. The rows above it have
        already moved up and the rest of the framebuffer is as it was. */
    method CopyRow(y: nat, ghost start: nat, ghost shift: nat, ghost before: seq<u32>)
      requires Valid() && |before| == pixels.Length
      requires start == y * width && shift == GLYPH_HEIGHT * width
      requires (y + GLYPH_HEIGHT) * width == start + shift && start + width + shift <= pixels.Length
      requires forall i :: 0 <= i < start ==> i + shift < |before| && pixels[i] == before[i + shift]
      requires forall i :: start <= i < pixels.Length ==> pixels[i] == before[i]
      modifies pixels
      ensures forall i :: 0 <= i < start + width ==> i + shift < |before| && pixels[i] == before[i + shift]
      ensures forall i :: start + width <= i < pixels.Length ==> pixels[i] == before[i]
    {
      var x := 0;
      while x < width
        invariant 0 <= x <= width
        invariant forall i :: 0 <= i < start + x ==> i + shift < |before| && pixels[i] == before[i + shift]
        invariant forall i :: start + x <= i < pixels.Length ==> pixels[i] == before[i]
      {
        var srcIndex := (y + GLYPH_HEIGHT) * width + x;
        var dstIndex := y * width + x;
        pixels[dstIndex] := pixels[srcIndex];
        x := x + 1;
      }
    }

    /** Black out `count` pixels from index `from` on; nothing else changes. */
    method Blank(from: nat, count: nat)
      requires from + count <= pixels.Length
      modifies pixels
      ensures forall i :: 0 <= i < pixels.Length ==>
        pixels[i] == (if from <= i < from + count then 0 else old(pixels[i]))
    {
      var i := 0;
      while i < count
        invariant 0 <= i <= count
        invariant forall j :: 0 <= j < pixels.Length ==>
          pixels[j] == (if from <= j < from + i then 0 else old(pixels[j]))
      {
        pixels[from + i] := 0;
        i := i + 1;
      }
    }
  }

  // ---- the writer ----

  /** The framebuffer and `TextBufferWritter`'s cursor and colours. The cursor column
      stays below 80; the row is not bounded: newlines move it past the last text row. */
  datatype WriterState = WriterState(pixels: seq<u32>, x: nat, y: nat, fg: u32, bg: u32)

  /** One byte of `write`'s loop: a newline moves to column 0 of the next row; any other
      byte is drawn at the cursor and the cursor moves one cell on, to the next row after
      column 79. */
  function Emit(s: WriterState, width: nat, font: nat -> byte, b: byte): (r: WriterState)
    requires s.x < WIDTH_SYMBOLS
    ensures r.x < WIDTH_SYMBOLS && |r.pixels| == |s.pixels| && r.fg == s.fg && r.bg == s.bg
  {
    if b == '\n' as byte then s.(x := 0, y := s.y + 1)
    else
      var x := s.x + 1;
      s.(pixels := Painted(s.pixels, width, s.x, s.y, b, s.fg, s.bg, font),
         x := x % WIDTH_SYMBOLS, y := s.y + x / WIDTH_SYMBOLS)
  }

  /** `write`'s loop over all of `buf`. */
  function EmitAll(s: WriterState, width: nat, font: nat -> byte, buf: seq<byte>): (r: WriterState)
    requires s.x < WIDTH_SYMBOLS
    ensures r.x < WIDTH_SYMBOLS && |r.pixels| == |s.pixels| && r.fg == s.fg && r.bg == s.bg
    decreases |buf|
  {
    if buf == [] then s else EmitAll(Emit(s, width, font, buf[0]), width, font, buf[1..])
  }

  /** `write(buf)`: one scroll on entry when the cursor sits on row 25, then the loop;
      the count returned is always the whole buffer. */
  function Write(s: WriterState, width: nat, font: nat -> byte, buf: seq<byte>): (r: (WriterState, nat))
    requires s.x < WIDTH_SYMBOLS
    requires s.y == HEIGHT_SYMBOLS ==> |s.pixels| >= TEXT_ROWS * width
  {
    var t := if s.y == HEIGHT_SYMBOLS then s.(pixels := Scrolled(s.pixels, width), y := s.y - 1) else s;
    (EmitAll(t, width, font, buf), |buf|)
  }

  /** The cursor as a cell count from the top left. */
  function CellIndex(x: nat, y: nat): nat
  {
    y * WIDTH_SYMBOLS + x
  }

  /** The loop never moves the cursor back: each byte moves it at least one cell on, and
      it never scrolls. */
  lemma {:induction false} EmitAllAdvances(s: WriterState, width: nat, font: nat -> byte, buf: seq<byte>)
    requires s.x < WIDTH_SYMBOLS
    ensures var r := EmitAll(s, width, font, buf);
      r.y >= s.y && CellIndex(r.x, r.y) >= CellIndex(s.x, s.y) + |buf|
    decreases |buf|
  {
    if buf != [] {
      var t := Emit(s, width, font, buf[0]);
      assert CellIndex(t.x, t.y) >= CellIndex(s.x, s.y) + 1;
      EmitAllAdvances(t, width, font, buf[1..]);
    }
  }

  /** `write` scrolls at most once, and only when it starts on row 25: then it continues
      from row 24. Starting anywhere else it draws without scrolling, and starting below
      row 25 it never scrolls again. It returns the length of `buf` in every case. */
  lemma WriteScrollsOnce(s: WriterState, width: nat, font: nat -> byte, buf: seq<byte>)
    requires s.x < WIDTH_SYMBOLS
    requires s.y == HEIGHT_SYMBOLS ==> |s.pixels| >= TEXT_ROWS * width
    ensures Write(s, width, font, buf).1 == |buf|
    ensures s.y == HEIGHT_SYMBOLS ==> (Write(s, width, font, buf).0
      == EmitAll(s.(pixels := Scrolled(s.pixels, width), y := HEIGHT_SYMBOLS - 1), width, font, buf))
    ensures s.y != HEIGHT_SYMBOLS ==> Write(s, width, font, buf).0 == EmitAll(s, width, font, buf)
    ensures s.y > HEIGHT_SYMBOLS ==> Write(s, width, font, buf).0.y > HEIGHT_SYMBOLS
  {
    if s.y > HEIGHT_SYMBOLS {
      EmitAllAdvances(s, width, font, buf);
    }
  }

  /** A glyph drawn on a text row that starts at or below the framebuffer's last pixel row
      changes no pixel: what is written there is lost. */
  lemma {:induction false} OffScreenPutInvisible(s: seq<u32>, width: nat, height: nat, x: nat, y: nat,
                                                 ch: byte, fg: u32, bg: u32, font: nat -> byte)
    requires |s| == width * height && y * GLYPH_HEIGHT >= height
    ensures Painted(s, width, x, y, ch, fg, bg, font) == s
  {
    forall i | 0 <= i < |s|
      ensures Painted(s, width, x, y, ch, fg, bg, font)[i] == s[i]
    {
      IndexOfPixel(width, height, i);
    }
  }

  /** `step_back`: at the top left nothing; otherwise the cursor moves one cell back (to
      column 79 of the row above from column 0) and that cell is drawn as a space. */
  function StepBack(s: WriterState, width: nat, font: nat -> byte): (r: WriterState)
  {
    if s.x == 0 && s.y == 0 then s
    else
      var (x, y) := if s.x == 0 then (WIDTH_SYMBOLS - 1, s.y - 1) else (s.x - 1, s.y);
      s.(pixels := Painted(s.pixels, width, x, y, ' ' as byte, s.fg, s.bg, font), x := x, y := y)
  }

  /** Away from the top left, `step_back` moves the cursor exactly one cell back and
      blanks that cell; the next byte written lands where the erased one was. */
  lemma StepBackUndoes(s: WriterState, width: nat, font: nat -> byte, b: byte)
    requires s.x < WIDTH_SYMBOLS && b != '\n' as byte
    ensures s.x == 0 && s.y == 0 ==> StepBack(s, width, font) == s
    ensures !(s.x == 0 && s.y == 0) ==>
      var r := StepBack(s, width, font);
      && CellIndex(r.x, r.y) + 1 == CellIndex(s.x, s.y)
      && r.pixels == Painted(s.pixels, width, r.x, r.y, ' ' as byte, s.fg, s.bg, font)
      && r.x < WIDTH_SYMBOLS
      && var t := Emit(r, width, font, b); t.x == s.x && t.y == s.y
  {
  }

  /** `set_next_fg` */
  function SetNextFg(s: WriterState, fg: u32): WriterState { s.(fg := fg) }

  /** `set_next_bg` as written: it assigns the foreground. */
  function SetNextBg(s: WriterState, bg: u32): WriterState { s.(fg := bg) }

  /** `set_next_bg` as evidently intended. */
  function SetNextBgCorrected(s: WriterState, bg: u32): WriterState { s.(bg := bg) }

  /** As written, `set_next_bg(c)` leaves the background as it was and makes the next
      glyph's set pixels colour `c`: a glyph drawn next still has the old background. */
  lemma SetNextBgChangesForeground(s: WriterState, c: u32, width: nat, font: nat -> byte, b: byte)
    requires s.x < WIDTH_SYMBOLS && b != '\n' as byte
    ensures SetNextBg(s, c).bg == s.bg && SetNextBg(s, c).fg == c
    ensures Emit(SetNextBg(s, c), width, font, b).pixels
      == Painted(s.pixels, width, s.x, s.y, b, c, s.bg, font)
  {
  }

  /** With the corrected setter the next glyph is drawn on background `c` in the old
      foreground, and the foreground setter leaves the background alone. */
  lemma SetNextBgCorrectedPaints(s: WriterState, c: u32, width: nat, font: nat -> byte, b: byte)
    requires s.x < WIDTH_SYMBOLS && b != '\n' as byte
    ensures SetNextBgCorrected(s, c).bg == c && SetNextBgCorrected(s, c).fg == s.fg
    ensures Emit(SetNextBgCorrected(s, c), width, font, b).pixels
      == Painted(s.pixels, width, s.x, s.y, b, s.fg, c, font)
    ensures SetNextFg(s, c).bg == s.bg && SetNextFg(s, c).fg == c
  {
  }

  /** `TextBufferWritter`: a screen, the font it draws with, the cursor and the colours. */
  class Writer {
    const screen: Screen
    const font: nat -> byte
    var x: nat
    var y: nat
    var fg: u32
    var bg: u32

    function State(): WriterState
      reads this, screen.pixels
    {
      WriterState(screen.pixels[..], x, y, fg, bg)
    }

    predicate Valid()
      reads this, screen
    {
      screen.Valid() && x < WIDTH_SYMBOLS
    }

    /** `TextBufferWritter::new(buffer)`: the top left, white on black. */
    constructor (screen: Screen, font: nat -> byte)
      requires screen.Valid()
      ensures Valid() && this.screen == screen && this.font == font
      ensures State() == WriterState(screen.pixels[..], 0, 0, 0x00ff_ffff, 0)
    {
      this.screen, this.font := screen, font;
      x, y, fg, bg := 0, 0, 0x00ff_ffff, 0;
    }

    /** `clear`: every pixel black, the cursor at the top left, the colours kept. */
    method Clear()
      requires Valid()
      modifies this, screen.pixels
      ensures Valid()
      ensures State() == old(State()).(pixels := seq(screen.width * screen.height, _ => 0), x := 0, y := 0)
    {
      screen.Clear();
      x, y := 0, 0;
    }

    /** `set_next_fg` */
    method SetNextFgNow(c: u32)
      modifies this
      ensures State() == SetNextFg(old(State()), c) && unchanged(screen.pixels)
    {
      fg := c;
    }

    /** `set_next_bg` as written. */
    method SetNextBgNow(c: u32)
      modifies this
      ensures State() == SetNextBg(old(State()), c) && unchanged(screen.pixels)
    {
      fg := c;
    }

    method StepBackNow()
      requires Valid()
      modifies this, screen.pixels
      ensures Valid() && State() == StepBack(old(State()), screen.width, font)
    {
      if x == 0 {
        if y == 0 {
          return;
        }
        y := y - 1;
        x := WIDTH_SYMBOLS - 1;
      } else {
        x := x - 1;
      }
      screen.Put(x, y, ' ' as byte, fg, bg, font);
    }

    /** `write(buf)`. A framebuffer shorter than the text grid would be written past
        by the scroll, so a write that scrolls needs one at least 400 pixel rows tall. */
    method WriteNow(buf: seq<byte>) returns (n: nat)
      requires Valid() && (y == HEIGHT_SYMBOLS ==> screen.height >= TEXT_ROWS)
      modifies this, screen.pixels
      ensures Valid() && (State(), n) == Write(old(State()), screen.width, font, buf)
    {
      if y == HEIGHT_SYMBOLS {
        MulMonotone(TEXT_ROWS, screen.height, screen.width);
        screen.ScrollDown();
        y := y - 1;
      }
      var i := 0;
      while i < |buf|
        invariant 0 <= i <= |buf| && Valid()
        invariant EmitAll(State(), screen.width, font, buf[i..]) == Write(old(State()), screen.width, font, buf).0
      {
        assert buf[i..][1..] == buf[i + 1..];
        EmitNow(buf[i]);
        i := i + 1;
      }
      n := |buf|;
    }

    /** One pass of `write`'s loop: a newline moves to the start of the next row, any
        other byte is drawn at the cursor, which moves one cell on. */
    method EmitNow(b: byte)
      requires Valid()
      modifies this, screen.pixels
      ensures Valid() && State() == Emit(old(State()), screen.width, font, b)
    {
      if b == '\n' as byte {
        x := 0;
        y := y + 1;
      } else {
        screen.Put(x, y, b, fg, bg, font);
        x := x + 1;
        y := y + x / WIDTH_SYMBOLS;
        x := x % WIDTH_SYMBOLS;
      }
    }
  }
}
