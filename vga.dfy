/** The first-generation text console of src/vga.rs: an 80×25 grid of (code, colours)
    cells and a cursor. Every character is written white on blue; the cursor wraps at the
    end of a row and from the last row back to the first (there is no scrolling), and a
    newline moves to the start of the next row, again modulo 25. */
module Vga {
  import opened Machine

  const WIDTH: nat := 80
  const HEIGHT: nat := 25
  const CELLS: nat := WIDTH * HEIGHT

  /** `0xf | 0x1 << 4`: white on blue. */
  const COLORS: byte := 0x1f

  datatype Symbol = Symbol(code: byte, colors: byte)

  /** `c as u8`: the low eight bits of the code point. */
  function CharByte(c: char): byte
  {
    (c as int) % 256
  }

  /** The grid and the cursor. */
  datatype VgaState = VgaState(cells: seq<Symbol>, x: nat, y: nat)

  predicate Valid(s: VgaState)
  {
    |s.cells| == CELLS && s.x < WIDTH && s.y < HEIGHT
  }

  /** The cursor as a cell index. */
  function Pos(s: VgaState): nat
  {
    s.y * WIDTH + s.x
  }

  /** `write_char(c)` */
  function WriteChar(s: VgaState, c: char): (r: VgaState)
    requires Valid(s)
    ensures Valid(r)
  {
    if c == '\n' then s.(x := 0, y := (s.y + 1) % HEIGHT)
    else
      var x := s.x + 1;
      var y := s.y + x / WIDTH;
      VgaState(s.cells[Pos(s) := Symbol(CharByte(c), COLORS)], x % WIDTH, y % HEIGHT)
  }

  /** `write_str(s)`: `write_char` on each character in order. */
  function WriteStr(s: VgaState, str: string): (r: VgaState)
    requires Valid(s)
    ensures Valid(r)
    decreases |str|
  {
    if str == [] then s else WriteStr(WriteChar(s, str[0]), str[1..])
  }

  /** A newline writes no cell; any other character writes exactly the cell under the
      cursor, white on blue, and moves the cursor one cell on, from the last cell back to
      the first. */
  lemma WriteCharEffect(s: VgaState, c: char)
    requires Valid(s)
    ensures c == '\n' ==> (WriteChar(s, c).cells == s.cells
      && WriteChar(s, c).x == 0 && WriteChar(s, c).y == (s.y + 1) % HEIGHT)
    ensures c != '\n' ==> (WriteChar(s, c).cells == s.cells[Pos(s) := Symbol(CharByte(c), COLORS)]
      && Pos(WriteChar(s, c)) == Reached(s, 1))
  {
    if c != '\n' {
      var r := WriteChar(s, c);
      if s.x + 1 < WIDTH {
        assert r.x == s.x + 1 && r.y == s.y;
      } else if s.y + 1 < HEIGHT {
        assert r.x == 0 && r.y == s.y + 1;
      } else {
        assert r.x == 0 && r.y == 0;
      }
    }
  }

  /** The cell `i` cells on from the cursor, wrapping around the grid. */
  function Reached(s: VgaState, i: nat): nat
  {
    (Pos(s) + i) % CELLS
  }

  /** After a string without newlines the cursor is |str| cells further on. */
  lemma {:induction false} WriteStrMoves(s: VgaState, str: string)
    requires Valid(s)
    requires forall i :: 0 <= i < |str| ==> str[i] != '\n'
    ensures Pos(WriteStr(s, str)) == Reached(s, |str|)
    decreases |str|
  {
    if str == [] {
      PosInGrid(s);
    } else {
      var t := WriteChar(s, str[0]);
      WriteCharEffect(s, str[0]);
      var rest := str[1..];
      assert WriteStr(s, str) == WriteStr(t, rest);
      forall i | 0 <= i < |rest| ensures rest[i] != '\n' {
        assert rest[i] == str[i + 1];
      }
      WriteStrMoves(t, rest);
      ModAdd(Pos(s) + 1, |rest|);
    }
  }

  /** The cursor is always a cell of the grid. */
  lemma PosInGrid(s: VgaState)
    requires Valid(s)
    ensures Pos(s) < CELLS && Pos(s) % CELLS == Pos(s)
  {
  }

  /** A string of at most CELLS characters without newlines lands in consecutive cells
      from the cursor on, white on blue. */
  lemma {:induction false} WriteStrLine(s: VgaState, str: string)
    requires Valid(s) && |str| <= CELLS
    requires forall i :: 0 <= i < |str| ==> str[i] != '\n'
    ensures forall i :: 0 <= i < |str| ==>
      WriteStr(s, str).cells[Reached(s, i)] == Symbol(CharByte(str[i]), COLORS)
    decreases |str|
  {
    if str != [] {
      var t := WriteChar(s, str[0]);
      WriteCharEffect(s, str[0]);
      var rest := str[1..];
      forall i | 0 <= i < |rest| ensures rest[i] != '\n' {
        assert rest[i] == str[i + 1];
      }
      WriteStrLine(t, rest);
      var r := WriteStr(s, str);
      assert r == WriteStr(t, rest);
      FirstCellKept(s, str);
      LaterCells(s, t, str, r.cells);
      PosInGrid(s);
      assert Reached(s, 0) == Pos(s);
    }
  }

  /** Cells reached from the next cursor position are those reached one further on. */
  lemma LaterCells(s: VgaState, t: VgaState, str: string, cells: seq<Symbol>)
    requires Pos(t) == Reached(s, 1) && |str| > 0 && |cells| == CELLS
    requires forall i :: 0 <= i < |str| - 1 ==> cells[Reached(t, i)] == Symbol(CharByte(str[1..][i]), COLORS)
    ensures forall i :: 1 <= i < |str| ==> cells[Reached(s, i)] == Symbol(CharByte(str[i]), COLORS)
  {
    forall i | 1 <= i < |str|
      ensures cells[Reached(s, i)] == Symbol(CharByte(str[i]), COLORS)
    {
      assert str[1..][i - 1] == str[i];
      ModAdd(Pos(s) + 1, i - 1);
      assert Reached(t, i - 1) == Reached(s, i);
    }
  }

  /** The rest of such a string does not overwrite its first character. */
  lemma FirstCellKept(s: VgaState, str: string)
    requires Valid(s) && 0 < |str| <= CELLS
    requires forall i :: 0 <= i < |str| ==> str[i] != '\n'
    ensures WriteStr(s, str).cells[Pos(s)] == Symbol(CharByte(str[0]), COLORS)
  {
    var t := WriteChar(s, str[0]);
    WriteCharEffect(s, str[0]);
    var rest := str[1..];
    forall j | 0 <= j < |rest|
      ensures rest[j] != '\n' && Reached(t, j) != Pos(s)
    {
      assert rest[j] == str[j + 1];
      NotBackYet(Pos(s), Pos(t), j);
    }
    WriteStrKeeps(t, rest, Pos(s));
  }

  /** Fewer than CELLS − 1 cells on from the cell after `p`, the cursor is not back at `p`. */
  lemma NotBackYet(p: nat, q: nat, j: nat)
    requires p < CELLS && q == (p + 1) % CELLS && j < CELLS - 1
    ensures (q + j) % CELLS != p
  {
    ModAdd(p + 1, j);
    ModOffsetDistinct(p, j + 1);
  }

  /** Writing a line leaves alone every cell it does not reach. */
  lemma {:induction false} WriteStrKeeps(s: VgaState, str: string, p: nat)
    requires Valid(s) && p < CELLS
    requires forall i :: 0 <= i < |str| ==> str[i] != '\n' && Reached(s, i) != p
    ensures WriteStr(s, str).cells[p] == s.cells[p]
    decreases |str|
  {
    if str != [] {
      var t := WriteChar(s, str[0]);
      WriteCharEffect(s, str[0]);
      assert Reached(s, 0) == Pos(s);
      forall i | 0 <= i < |str| - 1
        ensures str[1..][i] != '\n' && Reached(t, i) != p
      {
        ModAdd(Pos(s) + 1, i);
        assert str[i + 1] == str[1..][i] && Reached(s, i + 1) != p;
      }
      WriteStrKeeps(t, str[1..], p);
    }
  }

  /** A cell index moved on by 1 to CELLS − 1 cells is a different cell. */
  lemma ModOffsetDistinct(p: nat, k: nat)
    requires p < CELLS && 0 < k < CELLS
    ensures (p + k) % CELLS != p
  {
    if p + k >= CELLS {
      ModShift(p + k - CELLS, 1);
    }
  }

  /** (a % n + b) % n == (a + b) % n */
  lemma ModAdd(a: nat, b: nat)
    ensures ((a % CELLS) + b) % CELLS == (a + b) % CELLS
  {
    var q := a / CELLS;
    assert a == q * CELLS + a % CELLS;
    assert a + b == (a % CELLS + b) + q * CELLS;
    ModShift(a % CELLS + b, q);
  }

  lemma ModShift(x: nat, q: nat)
    ensures (x + q * CELLS) % CELLS == x % CELLS
  {
    var r := x % CELLS;
    var d := x / CELLS;
    assert x + q * CELLS == (d + q) * CELLS + r;
  }

  /** `Vga`: the 2000 cells at 0xb8000 are an array; the cursor two fields. */
  class Vga {
    const cells: array<Symbol>
    var x: nat
    var y: nat

    function State(): VgaState
      reads this, cells
    {
      VgaState(cells[..], x, y)
    }

    /** `Vga::new()`: the cursor at the top left; the cells keep what the screen shows,
        given here as `screen`. */
    constructor (screen: seq<Symbol>)
      requires |screen| == CELLS
      ensures Valid(State()) && fresh(cells)
      ensures State() == VgaState(screen, 0, 0)
    {
      cells := new Symbol[CELLS](i requires 0 <= i < CELLS => screen[i]);
      x, y := 0, 0;
      new;
      assert cells[..] == screen;
    }

    /** `clear()`: every cell code 0, white on blue; the cursor stays. */
    method Clear()
      requires Valid(State())
      modifies cells
      ensures Valid(State())
      ensures forall i :: 0 <= i < CELLS ==> cells[i] == Symbol(0, COLORS)
    {
      var i := 0;
      while i < cells.Length
        invariant 0 <= i <= cells.Length
        invariant forall j :: 0 <= j < i ==> cells[j] == Symbol(0, COLORS)
      {
        cells[i] := Symbol(0, COLORS);
        i := i + 1;
      }
    }

    method WriteCharNow(c: char)
      requires Valid(State())
      modifies this, cells
      ensures State() == WriteChar(old(State()), c)
    {
      if c == '\n' {
        x := 0;
        y := (y + 1) % HEIGHT;
        return;
      }
      cells[y * WIDTH + x] := Symbol(CharByte(c), COLORS);
      x := x + 1;
      y := y + x / WIDTH;
      x := x % WIDTH;
      y := y % HEIGHT;
    }

    /** `write_str(s)`; it always succeeds. */
    method WriteStrNow(str: string)
      requires Valid(State())
      modifies this, cells
      ensures State() == WriteStr(old(State()), str)
    {
      var i := 0;
      while i < |str|
        invariant 0 <= i <= |str|
        invariant Valid(State())
        invariant WriteStr(State(), str[i..]) == WriteStr(old(State()), str)
      {
        assert str[i..][1..] == str[i + 1..];
        WriteCharNow(str[i]);
        i := i + 1;
      }
    }
  }
}
