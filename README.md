# jttOS core, modelled in Dafny

jttOS is a small teaching kernel for 32-bit x86, written in Rust. It exists in several
generations: the first kernel under `src/`, the later one under `kernel/`, a shared
library under `utils/` and the user programs under `userspace/`. Beneath the inline
assembly and the port I/O sit many small, sequential components. This project models
them and proves what each one promises:

- **Memory bookkeeping.** The 4 KiB page-chunk pool allocator (a bump cursor plus an
  intrusive last-in-first-out free list), the 32-bit page-table and page-directory entry
  encoders (section 4.3 of the Intel 64 and IA-32 Architectures Software Developer's
  Manual, Volume 3A), and the first kernel's aligned bump heap.
- **Descriptors and dispatch.** IDT gate descriptors, the table of vectors that push an
  error code, the per-vector `push imm8; jmp rel32` trampolines, the 256-slot handler
  table, GDT segment descriptors, and the first kernel's interrupt table.
- **Processes and faults.** Pid allocation, the ring-3 entry context, the order of the
  paging calls in `Process::run`, the two page-fault policies (the U/S bit of the error
  code, then bands of the faulting address in cr2), and system-call dispatch on eax.
- **Input.** The PS/2 scan-code set 2 parser, the key queues (`utils` `Ringbuf` and the
  first kernel's `RingBuffer`), the keyboard driver, and the two userspace shells: their
  key→symbol tables and their command-buffer state machines.
- **Text output.** The 80×25 VGA text console of the first kernel (cursor, wrap, scroll
  and the ANSI SGR colour escapes of ECMA-48 section 8.3.117), the VGA attribute byte,
  the earlier white-on-blue VGA writer, and the pixel text buffer of the later kernel.
- **Utilities.** The interrupt-flag guards (`IntSafe`, `IrqSafe`, `critical_section::wrap`)
  over an abstract IF bit, `write_all`/`read_exact`, the 8254 PIT divisor bytes, and the
  CPUID vendor string.

Each Rust object whose methods update its fields is a Dafny `class`. Its methods are
proved against a pure specification function on a datatype state
(`ensures State() == Push(old(State()), x)`), and the properties are lemmas about those
functions. The source's fixed-size arrays are Dafny arrays. Integers are unbounded
`int`/`nat` with the source's widths written out as subset types (`byte`, `u16`, `u32`)
and explicit wrap-around. The page-entry encoders use `bv32`. A `debug_assert!` is a
`debugAssertions` parameter. Calls into code outside the model (paging set-up, the
process's output sink, `kill`, the jump to user mode) are recorded in order in an effect
trace (`Effects.Run`). Port I/O becomes the sequence of bytes written. Register values,
scan codes, the font and the screen's prior contents are parameters.

`kernel/src/gdt.rs` does not define the user selectors. Their values, 0x1b and 0x23, come
from `kernel/src/main.rs:124-129`. The `Key` enums (`utils/src/key.rs`,
`src/drivers/ps2/key.rs`) are not part of this model. `Keys.Key` declares the variants
the parser and the shells name. The shells of `userspace/src/terminal.rs` and
`userspace/src/lib.rs` define the same two key tables line for line. Both are modelled
once, in `Userspace`, and cited from `terminal.rs`.

## Model

| member | source | states |
|---|---|---|
| Machine.LeBytes | src/cpuid.rs:35 | the four bytes of a word, least significant first, each one the matching byte of the word |
| Machine.LeBytesRoundTrip | src/cpuid.rs:35 | reading the four little-endian bytes back gives the original word |
| Machine.LeBytesInjective | src/cpuid.rs:35 | two words with the same little-endian bytes are the same word |
| Machine.InterruptFlag.Cli | src/utils.rs:61-63 | `cli` leaves interrupts disabled |
| Machine.InterruptFlag.Sti | src/utils.rs:65-67 | `sti` leaves interrupts enabled |
| KeyParser.ParseStaysReachable | src/drivers/ps2/parser.rs:35-94 | the pause index never passes 5; a key event is reported only on the way back to Normal and never from a pause step, and it is a release exactly when a break prefix (F0) was pending |
| KeyParser.OverrunKeepsState | src/drivers/ps2/parser.rs:37-39 | byte 0x00 is the TooManyKeys error in every state and leaves the state as it was |
| KeyParser.PrefixTransitions | src/drivers/ps2/parser.rs:41-59 | E0, F0 and E1 from Normal and F0 after E0 move to the prefix states with Incomplete; every non-zero byte advances a pause step, and the sixth one moves to Extended |
| KeyParser.FakeShiftIgnored | src/drivers/ps2/parser.rs:61-73 | the fake-shift bytes 0x12 after E0 and 0x7C after E0 F0 are swallowed as Incomplete and the prefix state is kept |
| KeyParser.UnknownKeepsState | src/drivers/ps2/parser.rs:75-83 | a byte the relevant table does not know is Unrecognized and leaves the state as it was, so a pending prefix survives it |
| KeyParser.MapNormalRange | src/drivers/ps2/parser.rs:96-185 | every single-byte make code lies in 0x01..0x83, so none is the overrun byte or a prefix byte |
| KeyParser.MakeAndBreak | src/drivers/ps2/parser.rs:47-93 | a make code from Normal reports the key's press, F0 then the same code reports its release, and the parser is back in Normal after each |
| KeyParser.PauseSequence | src/drivers/ps2/parser.rs:41-94 | the Pause key's eight bytes E1 14 77 E1 F0 14 F0 77 give seven Incompletes and then Pressed(Pause), ending in Normal |
| KeyParser.Parser.constructor | src/drivers/ps2/parser.rs:29-33 | a new parser starts in Normal |
| KeyParser.Parser.ParseByte | src/drivers/ps2/parser.rs:35-94 | the parser's new state and the result are those of the transition function `Parse` on the old state and the byte |
| Keyboard.Driver.constructor | kernel/src/drivers/ps2/keyboard.rs:29-32 | the parser starts in Normal and the 1024-slot key queue starts empty |
| Keyboard.Driver.IntHandler | kernel/src/drivers/ps2/keyboard.rs:57-60 | the parser steps on the byte; the queue gains the key exactly when the result is a completed press, and is unchanged on releases, incomplete sequences and errors |
| Keyboard.Driver.Read | kernel/src/drivers/ps2/keyboard.rs:62-67 | the oldest queued key is removed and its number returned, or 0 with the queue unchanged when it is empty |
| Keyboard.ReadReturnsOldest | kernel/src/drivers/ps2/keyboard.rs:62-67 | on a queue holding q, reading gives nothing and changes nothing when q is empty, and otherwise gives q's first key and leaves exactly the rest of q |
| Keyboard.PressQueuesKey | kernel/src/drivers/ps2/keyboard.rs:57-60 | a one-byte key press from a quiet parser is reported as a press, and the queue then holds the old keys followed by that key |
| Ringbuf.Pushed | utils/src/ringbuf.rs:20-31 | a push stores the value in the write slot and nothing else, advances the write index by one modulo N, moves the read index one on (modulo N) exactly when the write index plus one, not yet reduced, equals it, keeps the indices in range and always adds one to the count |
| Ringbuf.Popped | utils/src/ringbuf.rs:33-42 | a pop gives None and changes nothing exactly when the count is 0; otherwise it gives the slot at the read index, advances the read index modulo N and lowers the count by one |
| Ringbuf.EmptyHolds | utils/src/ringbuf.rs:11-18 | a new buffer holds the empty queue |
| Ringbuf.PushAppends | utils/src/ringbuf.rs:20-31 | while the buffer holds fewer than N−1 elements, a push appends the value at the back of the queue it holds |
| Ringbuf.PopTakesOldest | utils/src/ringbuf.rs:33-42 | a pop from a non-empty queue returns its oldest element and leaves exactly the rest, in order |
| Ringbuf.DrainReads | utils/src/ringbuf.rs:33-42 | up to N successive pops return the slots from the read index on, wrapping past the last slot to slot 0 |
| Ringbuf.PushOntoReadZero | utils/src/ringbuf.rs:20-31 | with N−1 elements and the read index at 0, the write index wraps to 0 and the read index stays at 0, so the count becomes N and N pops return the queue followed by the new value |
| Ringbuf.PushOntoReadNonZero | utils/src/ringbuf.rs:20-31 | with N−1 elements and any other read index, the write index catches up with the read index and pushes it one on, yet the count still becomes N, so N pops return the queue without its oldest element, then the new value, and then the oldest element last |
| Ringbuf.CountUncapped | utils/src/ringbuf.rs:20-31 | a push on a buffer whose count is already N is accepted and the count passes N |
| Ringbuf.Buffer.constructor | utils/src/ringbuf.rs:11-18 | the new buffer has N slots, both indices 0 and count 0 |
| Ringbuf.Buffer.Push | utils/src/ringbuf.rs:20-31 | the fields after the push are those `Pushed` gives for the old fields |
| Ringbuf.Buffer.Pop | utils/src/ringbuf.rs:33-42 | the result and the new fields are those `Popped` gives for the old fields |
| Ringbuf.Buffer.Count | utils/src/ringbuf.rs:44-46 | `count()` reports the count field |
| Ringbuf.Buffer.IsEmptyNow | utils/src/ringbuf.rs:48-50 | `is_empty()` holds exactly when the count is 0 |
| RingBuffer.PopFront | src/ringbuffer.rs:34-38 | `pop_front` gives None and changes nothing exactly when nothing is available; otherwise it gives the slot at `start` and advances `start` modulo SIZE, touching nothing else |
| RingBuffer.PushBack | src/ringbuffer.rs:26-32 | `push_back` as written keeps the slot count and the indices in range (what it keeps is stated by `PushKeepsOnlyNewest`) |
| RingBuffer.Count | src/ringbuffer.rs:46-52 | the number of stored elements, the distance from `start` to `end`, is below SIZE |
| RingBuffer.FullMeansOne | src/ringbuffer.rs:46-52 | with two or more slots, `full()` holds exactly when one element is stored, and `available()` exactly when at least one is |
| RingBuffer.PushKeepsOnlyNewest | src/ringbuffer.rs:26-32 | as written, a push onto a buffer holding at most one element returns the element it held (if any) and leaves exactly the new one |
| RingBuffer.SecondPushDropsFirst | src/ringbuffer.rs:26-52 | two pushes a, b onto a new buffer of two or more slots: the second returns a although there was room, and a pop then gives b and leaves the buffer empty |
| RingBuffer.PushBackCorrected | src/ringbuffer.rs:26-32 | `push_back` with the intended fullness test keeps the slot count and the indices in range |
| RingBuffer.NewHoldsNothing | src/ringbuffer.rs:10-16 | a new buffer holds the empty queue |
| RingBuffer.HoldsTests | src/ringbuffer.rs:46-52 | on a buffer holding q, `available()` holds exactly when q is non-empty, and the intended fullness test exactly when q has SIZE − 1 elements |
| RingBuffer.PopFrontTakesOldest | src/ringbuffer.rs:34-38 | `pop_front` on a buffer holding q gives None and changes nothing when q is empty, and otherwise gives q's first element and leaves exactly the rest |
| RingBuffer.WriteAppends | src/ringbuffer.rs:29-30 | the write at `end` and the advance of `end` append the item to the queue held, when there is room |
| RingBuffer.CorrectedPushIsFifo | src/ringbuffer.rs:26-32 | with the intended test the buffer is a FIFO queue of SIZE − 1 elements: a push appends, and drops and returns the oldest element exactly when SIZE − 1 are already queued |
| RingBuffer.Buffer.constructor | src/ringbuffer.rs:10-16 | the new buffer has SIZE slots and `start` = `end` = 0 |
| RingBuffer.Buffer.IsAvailable | src/ringbuffer.rs:46-48 | `available()` holds exactly when `start` and `end` differ |
| RingBuffer.Buffer.IsFull | src/ringbuffer.rs:50-52 | `full()` on the object agrees with the fullness test as written |
| RingBuffer.Buffer.PopFrontNow | src/ringbuffer.rs:34-38 | the result and the new fields are those `PopFront` gives for the old fields |
| RingBuffer.Buffer.PushBackNow | src/ringbuffer.rs:26-32 | the result and the new fields are those `PushBack` gives for the old fields |
| TextBuffer.Painted | utils/src/textbuffer.rs:29-53 | drawing a glyph keeps the framebuffer's size (its pixels are stated by `PaintedPixel`) |
| TextBuffer.PaintedPixel | utils/src/textbuffer.rs:29-53 | after `put(x, y, ch, fg, bg)` a pixel outside cell (x, y) keeps its colour; a pixel inside it is fg where the font bit for that glyph row and column is set and bg where it is clear |
| TextBuffer.Scrolled | utils/src/textbuffer.rs:55-74 | scrolling keeps the framebuffer's size (its pixels are stated by `ScrolledPixel`) |
| TextBuffer.ScrolledPixel | utils/src/textbuffer.rs:55-74 | after `scroll_down` pixel rows 0..383 hold what was sixteen rows lower, rows 384..399 are black and rows below the 400-row text grid keep their colour |
| TextBuffer.Screen.constructor | utils/src/textbuffer.rs:19-21 | the screen has the framebuffer's width and height and width·height pixels |
| TextBuffer.Screen.Clear | utils/src/textbuffer.rs:23-27 | every pixel of the framebuffer is black afterwards |
| TextBuffer.Screen.Put | utils/src/textbuffer.rs:29-53 | the pixels afterwards are `Painted` of the pixels before: the glyph drawn into the part of the cell inside the framebuffer, no other pixel touched |
| TextBuffer.Screen.ScrollDown | utils/src/textbuffer.rs:55-74 | the pixels afterwards are `Scrolled` of the pixels before |
| TextBuffer.Screen.CopyRow | utils/src/textbuffer.rs:57-66 | one pass of the copy loop: pixel row y takes the pixels sixteen rows further down, the rows above it keep the pixels they have already moved up, and every pixel from the next row on is still the original |
| TextBuffer.Screen.Blank | utils/src/textbuffer.rs:68-73 | the `count` pixels from `from` on become black and every other pixel keeps its value |
| TextBuffer.Emit | utils/src/textbuffer.rs:124-134 | one byte of the write loop keeps the column below 80, the framebuffer's size and both colours |
| TextBuffer.EmitAll | utils/src/textbuffer.rs:123-134 | the whole write loop keeps the column below 80, the framebuffer's size and both colours |
| TextBuffer.EmitAllAdvances | utils/src/textbuffer.rs:123-134 | the write loop never moves the cursor back: after n bytes the cursor is at least n cells further on and the row has not decreased |
| TextBuffer.WriteScrollsOnce | utils/src/textbuffer.rs:117-136 | `write` returns the whole length; it scrolls once, and only when it starts on row 25, continuing from row 24; starting below row 25 it never scrolls and ends below row 25 |
| TextBuffer.OffScreenPutInvisible | utils/src/textbuffer.rs:29-53 | a glyph on a text row that starts at or below the framebuffer's last pixel row changes no pixel |
| TextBuffer.StepBackUndoes | utils/src/textbuffer.rs:102-113 | at the top left `step_back` does nothing; elsewhere it moves the cursor exactly one cell back, draws a space there, and the next byte written lands back on the original cursor cell |
| TextBuffer.SetNextBgChangesForeground | utils/src/textbuffer.rs:98-100 | as written, `set_next_bg(c)` leaves the background unchanged and sets the foreground to c, so the next glyph is drawn with c on the old background |
| TextBuffer.SetNextBgCorrectedPaints | utils/src/textbuffer.rs:94-100 | with the corrected setter the next glyph is drawn in the old foreground on background c; `set_next_fg` changes only the foreground |
| TextBuffer.Writer.constructor | utils/src/textbuffer.rs:78-86 | a new writer is at the top left, white (0x00ffffff) on black |
| TextBuffer.Writer.Clear | utils/src/textbuffer.rs:88-92 | every pixel becomes black and the cursor moves to the top left; the colours are kept |
| TextBuffer.Writer.SetNextFgNow | utils/src/textbuffer.rs:94-96 | only the foreground changes |
| TextBuffer.Writer.SetNextBgNow | utils/src/textbuffer.rs:98-100 | the new state is `SetNextBg` of the old one, which assigns the foreground |
| TextBuffer.Writer.StepBackNow | utils/src/textbuffer.rs:102-113 | the new state is `StepBack` of the old one |
| TextBuffer.Writer.WriteNow | utils/src/textbuffer.rs:117-136 | the new state and the count returned are those of `Write` on the old state |
| TextBuffer.Writer.EmitNow | utils/src/textbuffer.rs:124-133 | one byte of the loop gives the state `Emit` describes: a newline moves the cursor to the start of the next row, any other byte is drawn at the cursor and the cursor moves one cell on, wrapping to the next row |
| ConsoleVga.ToU8 | src/console/vga.rs:20-39 | every colour's number is below 16 |
| ConsoleVga.FromU8Inverts | src/console/vga.rs:131-153 | `from_u8` is defined exactly on 0..15 and is the inverse of `as u8` in both directions |
| ConsoleVga.ColorCodeLayout | src/console/vga.rs:107-124 | `ColorCode::new(fg, bg)` has bg in the high nibble and fg in the low nibble, and `get_fg` reads fg back |
| ConsoleVga.SettersTouchOneNibble | src/console/vga.rs:112-120 | `set_fg` changes only the low nibble and `set_bg` only the high one, and the colour set is the one read back |
| ConsoleVga.GetBgPanicsUnlessBlack | src/console/vga.rs:126-128 | as written, `get_bg` on a packed code succeeds exactly when the background is black (and then gives black); every other background makes its `unwrap` panic |
| ConsoleVga.GetBgCorrectedInverts | src/console/vga.rs:126-128 | `get_bg` reading the high nibble shifted down gives back the background of every packed code |
| ConsoleVga.DefaultColors | src/console/vga.rs:3 | the default attribute is 0x0f, white on black, and both getters read those colours from it |
| ConsoleVga.Scrolled | src/console/vga.rs:62-79 | after scrolling, each cell of rows 0..23 holds the cell one row below, and row 24 holds default characters |
| ConsoleVga.TextMode80x25.constructor | src/console/vga.rs:48-52 | the grid is a fresh array of 2000 cells holding what the screen showed |
| ConsoleVga.TextMode80x25.SetCharacter | src/console/vga.rs:54-60 | exactly cell x + 80·y is written |
| ConsoleVga.TextMode80x25.ScrollDown | src/console/vga.rs:62-79 | the grid afterwards is `Scrolled` of the grid before |
| ConsoleVga.TextMode80x25.Clear | src/console/vga.rs:81-85 | every cell holds the default character afterwards |
| Vga.WriteChar | src/vga.rs:58-77 | one character keeps the grid at 2000 cells and the cursor inside it |
| Vga.WriteStr | src/vga.rs:51-56 | a string keeps the grid at 2000 cells and the cursor inside it |
| Vga.WriteCharEffect | src/vga.rs:58-77 | a newline writes no cell and moves to column 0 of the next row modulo 25; any other character writes exactly the cell under the cursor, white on blue, and moves the cursor one cell on, from the last cell back to the first |
| Vga.WriteStrMoves | src/vga.rs:51-56 | after a string without newlines the cursor is its length further on, modulo the 2000 cells |
| Vga.WriteStrLine | src/vga.rs:51-77 | a string of at most 2000 characters without newlines lands character by character in consecutive cells from the cursor on, white on blue |
| Vga.FirstCellKept | src/vga.rs:51-77 | the rest of such a string does not overwrite the cell of its first character |
| Vga.WriteStrKeeps | src/vga.rs:51-77 | writing such a string leaves every cell it does not reach unchanged |
| Vga.Vga.constructor | src/vga.rs:31-36 | the cursor starts at the top left and the cells keep what the screen showed |
| Vga.Vga.Clear | src/vga.rs:38-43 | every cell becomes code 0, white on blue |
| Vga.Vga.WriteCharNow | src/vga.rs:58-77 | the new grid and cursor are those of `WriteChar` |
| Vga.Vga.WriteStrNow | src/vga.rs:51-56 | the new grid and cursor are those of `WriteStr` |
| Console.EscapeLength | src/console/mod.rs:57-63 | the escape parsing takes at most four bytes after ESC and never more than remain |
| Console.ScrollIfBelow | src/console/mod.rs:118-121 | the scroll check brings a cursor that left the last row back onto the grid |
| Console.Put | src/console/mod.rs:108-115 | storing a printable byte keeps the grid at 2000 cells and the column below 80, and moves the row down by at most one |
| Console.Write | src/console/mod.rs:48-125 | `write_all` leaves the grid at 2000 cells and the cursor on the grid, whatever the bytes |
| Console.NewlineStep | src/console/mod.rs:51-53 | a newline moves to column 0 of the next row, writing no cell, and on the last row scrolls the grid and stays on the last row; the colours are kept |
| Console.PrintableStep | src/console/mod.rs:108-121 | a printable byte is stored at (x, y) in the current colours and the cursor moves one cell on, to the next row after column 79, scrolling and staying on the last row after its last cell |
| Console.SgrStep | src/console/mod.rs:57-105 | `ESC [ d1 d2 m` writes no cell and moves no cursor; 30–37 set the foreground and 40–47 the background to the ANSI colour, 39 and 49 restore white and black, and every other pair changes nothing |
| Console.MalformedEscape | src/console/mod.rs:57-105 | an ESC that does not start a complete colour selection changes nothing and drops the next byte when it is not `[`, else the `[` and up to three more |
| Console.MacroSequences | src/console/macros.rs:3-22 | the `green!`, `yellow!` and `red!` prefixes and their common suffix only set the foreground to green, yellow, red and back to white |
| Console.WriteSplits | src/console/mod.rs:48-125 | writing a + b is writing a then b when a contains no ESC |
| Console.Console.constructor | src/console/mod.rs:25-38 | a new console is at the top left, white on black, over what the screen showed |
| Console.Console.Clear | src/console/mod.rs:40-44 | the cursor moves to the top left and every cell becomes the default character; the colours are kept |
| Console.Console.ScrollIfBelowNow | src/console/mod.rs:118-121 | the new state is `ScrollIfBelow` of the old one |
| Console.Console.NewlineNow | src/console/mod.rs:51-53 | the new state is the newline move followed by the scroll check |
| Console.Console.PutNow | src/console/mod.rs:108-121 | the new state is `Put` followed by the scroll check |
| Console.Console.SelectNow | src/console/mod.rs:74-103 | the new colours are those `Select` gives for the two digits |
| Console.Console.EscapeNow | src/console/mod.rs:57-105 | the colours change exactly as a complete selection says, and the iterator ends `EscapeLength` bytes on |
| Console.Console.WriteAll | src/console/mod.rs:48-125 | the new state is `Write` of the old state and the buffer, and the result is always Ok |
| Io.WriteCallsShape | src/io.rs:15-23 | every `write` call of `write_all` but the last succeeded; each call receives the buffer from the sum of the earlier counts on; the loop makes at least one call on a non-empty rest, and when it ends without error the counts cover the whole buffer |
| Io.EarlierCallsSucceed | src/io.rs:17-19 | every call of the loop but the last returned `Ok`: the `?` ends the loop at the first error |
| Io.CallsGetRest | src/io.rs:17-19 | each call receives the buffer from `pos` plus the sum of the earlier counts on, and a non-empty rest leads to at least one call |
| Io.SuccessCoversBuffer | src/io.rs:17-21 | when no call failed, the counts add up to at least the rest of the buffer, so the loop exits only once `pos` reaches its length |
| Io.WriteAll | src/io.rs:15-23 | `write_all` returns the first error a call reports, and `Ok(())` when no call fails |
| Io.ReadExactFrom | src/io.rs:57-65 | `read_exact` keeps the buffer's length |
| Io.ReadExactFills | src/io.rs:57-65 | with a reader that always succeeds, `read_exact` returns Ok, keeps the bytes before the position and places each reply's bytes at the position where the call was made |
| Io.ReadExactStopsAtError | src/io.rs:57-65 | the first failing `read` ends `read_exact` with its error, with the buffer as the earlier reads left it |
| Io.ReadExactStep | src/io.rs:60-62 | a successful `read` with a reader that makes progress returns between one byte and the rest of the buffer, and `read_exact` goes on from the position moved by that count with those bytes in place |
| Io.CopyAt | src/io.rs:61 | the bytes a `read` returns land at `buf[pos..]`; the bytes before and after them are unchanged |
| Io.ReadExact | src/io.rs:57-65 | the buffer and the result afterwards are those `ReadExactFrom` gives from position 0 |
| Sync.TryLockCases | src/sync.rs:47-60 | `try_lock` on a held guard fails and changes nothing; on a free one it succeeds, records IF, leaves interrupts masked and marks the guard held |
| Sync.TryUnlockCases | src/sync.rs:68-80 | `try_unlock` on a free guard fails and changes nothing; on a held one it succeeds, frees the guard and sets IF exactly when IF was recorded as set |
| Sync.LockUnlockRestoresIf | src/sync.rs:47-80 | taking and releasing a free guard both succeed and leave IF as it was and the guard free |
| Sync.IntSafe.constructor | src/sync.rs:27-33 | a new guard is free with nothing recorded |
| Sync.IntSafe.TryLockNow | src/sync.rs:47-60 | the new fields, IF and the result are those of `TryLock` |
| Sync.IntSafe.Lock | src/sync.rs:39-45 | `lock` panics exactly on a double lock, and otherwise takes the guard as `try_lock` does |
| Sync.IntSafe.TryUnlockNow | src/sync.rs:68-80 | the new fields, IF and the result are those of `TryUnlock` |
| Sync.IntSafe.Unlock | src/sync.rs:62-66 | `unlock` panics exactly when the guard is free, and otherwise releases it as `try_unlock` does |
| Sync.IntSafe.DropGuard | src/sync.rs:96-100 | dropping a guard is one `unlock`: it panics exactly when the guard is already free |
| Irq.LockCounts | src/irq.rs:24-35 | `lock` adds one holder and never enables interrupts; an outermost lock, or one whose enclosing lock recorded IF clear, records IF and leaves interrupts masked; any other lock only counts |
| Irq.UnlockPanicsAtZero | src/irq.rs:37-46 | as written, `unlock` counts down saturating at zero and panics exactly when the count ends at zero; it never changes IF, so its `sti` is unreachable |
| Irq.OutermostUnlockPanics | src/irq.rs:24-46 | as written, releasing the only holder of a free guard panics |
| Irq.CorrectedUnlockRestoresIf | src/irq.rs:24-46 | with `unlock` panicking only on a zero count and unmasking when the last holder goes, a lock/unlock pair and two nested pairs never panic and leave the guard free and IF as it was |
| Irq.IrqSafe.constructor | src/irq.rs:16-22 | a new guard has count 0 and nothing recorded |
| Irq.IrqSafe.LockNow | src/irq.rs:24-35 | the new count, recorded flag and IF are those of `Lock` |
| Irq.IrqSafe.UnlockNow | src/irq.rs:37-46 | the new state and the panic are those of `Unlock` as written |
| Irq.IrqSafe.DropGuard | src/irq.rs:62-66 | dropping a guard is one `unlock` as written |
| LinearAllocator.AlignOffset | src/allocator.rs:27-29 | the offset is below the alignment and moves the pointer onto a multiple of it |
| LinearAllocator.BumpBlock | src/allocator.rs:20-36 | a block handed out is aligned as requested, starts at or after the old cursor and less than one alignment past it, and the cursor moves to its end, strictly before the arena end |
| LinearAllocator.SuccessiveBlocks | src/allocator.rs:20-36 | from inside the arena the cursor never moves back, every block lies in the 100 MiB arena at 1 MiB, and the next block starts at or after the previous block's end, so blocks never overlap |
| LinearAllocator.Allocator.constructor | src/allocator.rs:41-47 | the global allocator starts with the cursor at 1 MiB, the end at 101 MiB and the guard free |
| LinearAllocator.Allocator.Alloc | src/allocator.rs:20-36 | the cursor moves as `Bump` says; a failed assertion panics with the guard held; otherwise the guard is dropped as `unlock` as written does, and when the guard was free on entry every call panics |
| LinearAllocator.Allocator.Dealloc | src/allocator.rs:38 | `dealloc` changes nothing |
| Cpuid.VendorBytes | src/cpuid.rs:34-37 | the vendor string has twelve bytes |
| Cpuid.VendorLayout | src/cpuid.rs:19-39 | byte 4k + j of the vendor string is byte j of register k (ebx, edx, ecx in that order), and each register reads back from its four bytes, so the string determines the registers |
| Cpuid.Cpuid.constructor | src/cpuid.rs:4-7 | a default `Cpuid` has nothing cached |
| Cpuid.Cpuid.ReadVendor | src/cpuid.rs:19-39 | the bytes returned and cached are the vendor string of the three registers |
| Cpuid.Cpuid.GetVendor | src/cpuid.rs:10-17 | a cached string is returned unchanged (`cpuid` is not run again); otherwise the string is read, cached and returned |
| LegacyIdt.SetEntry | src/idt.rs:32-37 | the two offset halves put together give the handler's address, the attribute byte is the ring-0 interrupt gate 0x8e, and the selector and reserved byte are kept |
| LegacyIdt.Idt.constructor | src/idt.rs:8-10 | the table holds 255 blank descriptors |
| LegacyIdt.Idt.SetEntryAt | src/idt.rs:32-37 | the table has 255 descriptors (src/idt.rs:5); an index below 255 fills exactly that descriptor as `set_entry` does; an index of 255 or more is out of bounds and changes nothing |
| LegacyIdt.FreshEntryAfterSet | src/idt.rs:5-37 | a descriptor filled after `new` points at its handler with selector 0 (it is never set) and reserved byte 0, and vector 255 has no descriptor |
| LegacyIdt.PanicNamesVector | src/idt.rs:40-44 | the panic messages "IRQ<n>" of two different vectors differ |
| Effects.PagingSplits | kernel/src/process/mod.rs:36-44 | the paging state after a concatenation of calls, and whether every page-table edit in it happens with paging off, are computed part by part |
| Effects.KeepingPaging | kernel/src/process/mod.rs:36-44 | calls that do not switch paging keep its state, and respect the discipline when paging is off or when they edit no page table |
| Effects.Bracketed | kernel/src/process/mod.rs:36-44 | calls that leave paging alone, then paging off, edits, paging on, then calls that leave paging alone, edit page tables only with paging off and end with paging on |
| Effects.Decimal | src/idt.rs:42 | `{}` prints an unsigned number as at least one decimal digit with no leading zero |
| Effects.DecimalRoundTrip | src/idt.rs:42 | reading a printed number back as decimal gives the number |
| Effects.DecimalInjective | src/idt.rs:42 | different numbers print differently |
| Process.NextCounter | kernel/src/process/mod.rs:26-30 | `CUR_MAX_PID += 1` panics exactly at the top of the u32 range when overflow checks are on, otherwise gives the next value, wrapping to 0 at the top |
| Process.PidsIncrease | kernel/src/process/mod.rs:24-34 | while the counter does not wrap, n successive processes get the pids start, start + 1, …, start + n − 1 |
| Process.PidsDistinct | kernel/src/process/mod.rs:24-34 | while the counter does not wrap, a later process gets a strictly larger pid, so pids are distinct |
| Process.PidCounter.constructor | kernel/src/process/mod.rs:21 | the counter starts at 0 |
| Process.PidCounter.NewProcess | kernel/src/process/mod.rs:24-34 | the new process gets the counter's old value as its pid, state 0 and the entry point, and the counter moves on; the overflow panic creates nothing and leaves the counter |
| Process.EntryContext | kernel/src/process/mod.rs:47-71 | the frame carries argc in eax, argv in ecx, the stack in esp and the entry in eip, the user code selector in cs and the user data selector in every data segment and ss, and zero in every other register |
| Process.EntryContextIsRing3 | kernel/src/process/mod.rs:47-75 | returning through the frame lands in ring 3: both selectors request privilege 3 and name the ring-3 code and data descriptors, interrupts are on, IOPL is 0 and the always-one bit is set |
| Process.RunProcess | kernel/src/process/mod.rs:36-44 | `run` never returns; it edits page tables only with paging off and ends with paging on, registers the page-fault handler for vector 14 and jumps to the program through the ring-3 frame |
| ProcessErrors.ClassifyIsBand | kernel/src/process/errors.rs:26-31 | an address is classified as c exactly when it lies in c's band: NPE below 2 MiB, SOE to 4 MiB, guard page to 8 MiB, UB above; the bands are disjoint and cover every u32 |
| ProcessErrors.KillRun | kernel/src/process/errors.rs:42-64 | the NPE, SOE and UB handlers print their tag and a newline first, kill the process, and end spinning without returning |
| ProcessErrors.StackExpandRun | kernel/src/process/errors.rs:66-71 | the stack-expansion handler maps the stack page for cr2, edits page tables only with paging off, leaves paging on and returns |
| ProcessErrors.PageFaultOutcome | kernel/src/process/errors.rs:11-40 | the handler returns exactly for a user-mode fault in the guard band, having mapped the page with paging off and paging left on; a kernel-mode fault goes to the unhandled-interrupt panic; every other user fault prints its tag and kills the process |
| ProcessErrors.MismatchedPrivilegeAsserts | kernel/src/process/errors.rs:12-13 | with debug assertions, a fault whose U/S bit disagrees with the saved code segment's privilege panics at the assertion |
| PageFault.ClassifyIsBand | kernel/src/process/pagefault.rs:15-20 | an address is classified as c exactly when it lies in c's band, and the gap 0x7000..0x80000 between the null-pointer and stack-overflow bands counts as UB |
| PageFault.PageFaultRun | kernel/src/process/pagefault.rs:1-33 | a user-mode fault calls exactly the slot of its class with the context and returns; a kernel-mode fault does not return |
| PageFault.RoutingIsExclusive | kernel/src/process/pagefault.rs:22-28 | with four distinct handlers registered, two classes are routed to the same slot exactly when they are the same class |
| PageFault.ReloadProcess | kernel/src/process/pagefault.rs:35-40 | reloading rebuilds user paging only with paging off, leaves paging on and ends by jumping to the program on the stack at 8 MiB |
| PageFault.TagClosureRun | kernel/src/process/pagefault.rs:43-60 | the NPE, SOE and UB closures print their tag and a newline on the kernel's global `TBW` writer first, keep the paging discipline and never return to the faulting code |
| PageFault.StackExpandClosureRun | kernel/src/process/pagefault.rs:61-68 | the stack-expansion closure maps the page for cr2 with paging off, prints cr2 in decimal on the kernel's global `TBW` writer, leaves paging on and returns |
| Interrupts.HasErrcodeMatchesArchitecture | kernel/src/interrupts.rs:100-105 | `has_errcode` holds exactly for the exceptions for which the processor pushes an error code (double fault, invalid TSS, segment not present, stack fault, general protection, page fault, alignment check, control protection, VMM communication, security) |
| Interrupts.DescriptorNew | kernel/src/interrupts.rs:116-126 | a new gate points at the whole address, uses the kernel code selector 8 and a zero reserved byte, and is a present, ring-0, 32-bit interrupt gate |
| Interrupts.Trampoline | kernel/src/interrupts.rs:64-82 | a trampoline is eight bytes |
| Interrupts.TrampolineDecodes | kernel/src/interrupts.rs:64-82 | a trampoline decodes as `push imm8` of its vector followed by `jmp rel32` with its displacement |
| Interrupts.RelativeJumpLands | kernel/src/interrupts.rs:76-80 | a jump whose displacement is the target minus the end of the instruction lands on the target, in 32-bit wrap-around arithmetic |
| Interrupts.BuildTrampoline | kernel/src/interrupts.rs:64-82 | the box holds the trampoline that pushes the vector and jumps from the box address + 7 to `collect_ctx` for vectors with an error code and to `collect_ctx_push` for the others |
| Interrupts.Idt.constructor | kernel/src/interrupts.rs:63-91 | each of the 256 gates is `DescriptorNew` of its box's address, each box holds its vector's trampoline, and the `lidt` descriptor has size 2047 and offset 0 |
| Interrupts.Idt.SwitchToInterrupt | kernel/src/interrupts.rs:107-109 | an index below 256 makes exactly that gate a ring-0 interrupt gate; a larger one panics and changes nothing |
| Interrupts.Idt.MarkSyscall | kernel/src/interrupts.rs:111-113 | an index below 256 makes exactly that gate reachable from ring 3; a larger one panics and changes nothing |
| Interrupts.MarkSyscallOpensRing3 | kernel/src/interrupts.rs:111-126 | marking a fresh gate as a system-call gate keeps its target, selector, present bit and gate type and only lowers its privilege to 3 |
| Interrupts.HandlerTable.constructor | kernel/src/interrupts.rs:13-14 | all 256 slots start with the unhandled-interrupt panic |
| Interrupts.HandlerTable.RegisterHandler | kernel/src/interrupts.rs:234-236 | the slot for the index holds the handler and no other slot changes |
| Interrupts.HandlerTable.GlobalHandler | kernel/src/interrupts.rs:175-187 | a null frame panics; otherwise the handler in the slot of the frame's own vector is called with it, and an empty slot never returns |
| Interrupts.UnhandledPanicRun | kernel/src/interrupts.rs:189-232 | the unhandled-interrupt handler prints the vector in decimal and then panics, never returning |
| Interrupts.UnregisteredVectorPanics | kernel/src/interrupts.rs:189-232 | a vector without a registered handler brings the kernel down: every slot of the handler table starts as `unhandled_panic` (kernel/src/interrupts.rs:13-14) |
| Gdt.OrDpl3 | kernel/src/gdt.rs:127 | or-ing in DPL3 sets the privilege bits to 3 and keeps the present bit and the low five bits |
| Gdt.Zero | kernel/src/gdt.rs:70-79 | the null descriptor has base 0 and limit 0 and is not present |
| Gdt.BaseCode | kernel/src/gdt.rs:81-98 | the code template is a present, ring-0, executable, readable code segment at base 0 with limit 0xf00ff in 4 KiB units and 32-bit default size |
| Gdt.BaseData | kernel/src/gdt.rs:100-115 | the data template is a present, ring-0, writable data segment at base 0 with limit 0xf00ff in 4 KiB units and 32-bit default size |
| Gdt.UserCode | kernel/src/gdt.rs:125-129 | the user code segment is the kernel code segment with privilege level 3 and nothing else changed |
| Gdt.UserData | kernel/src/gdt.rs:131-135 | the user data segment is the kernel data segment with privilege level 3 and nothing else changed |
| Gdt.Tss | kernel/src/gdt.rs:137-143 | the TSS descriptor is a present, ring-0 system descriptor of type available 32-bit TSS, with base and limit 0 |
| Gdt.SetBase | kernel/src/gdt.rs:145-149 | the descriptor afterwards starts at the given base, and its limit and flags are unchanged |
| Gdt.SetLimit | kernel/src/gdt.rs:151-157 | with debug assertions a limit of 2^20 or more fails the assertion; otherwise the limit becomes the low 20 bits of the argument, and the base, access byte and the G/DB/L/AVL nibble are unchanged |
| Gdt.TssPatched | kernel/src/main.rs:84-85 | patching the TSS descriptor with a base and then a limit below 2^20, as the kernel does at boot, leaves a present available-TSS descriptor with exactly that base and limit |
| Gdt.Table.constructor | kernel/src/gdt.rs:160-171 | the table holds the null, kernel code, kernel data, user code, user data and TSS descriptors in that order |
| Gdt.Table.Entries | kernel/src/gdt.rs:53-61 | the table has six descriptors |
| Gdt.Table.DescriptorSize | kernel/src/gdt.rs:8-11 | `GDT_DESC.size` is the table's size in bytes minus one |
| Gdt.SelectorsMatchTable | kernel/src/main.rs:124-129 | the kernel selectors 0x08 and 0x10 and the user selectors 0x1b and 0x23 name the kernel code, kernel data, user code and user data descriptors, each with requested privilege equal to the descriptor's, and 0x28 names the TSS |
| PageEntries.Flags | kernel/src/paging/entries.rs:11 | the user, read/write and present flags land in bits 2, 1 and 0, each reads back as given, and no higher bit is set |
| PageEntries.PteNew | kernel/src/paging/entries.rs:10-12 | the frame index reads back through `frame_addr` modulo 2^20, the present, read/write and user flags read back exactly, and bits 3-11 are clear |
| PageEntries.PteEmpty | kernel/src/paging/entries.rs:14-16 | the empty entry is not present, not writable, not user-accessible and maps frame 0 |
| PageEntries.PteFrameRoundTrip | kernel/src/paging/entries.rs:10-20 | a frame index below 2^20 is recovered exactly by `frame_addr` from the entry built with it |
| PageEntries.PteNewInjective | kernel/src/paging/entries.rs:10-32 | two entries built from frame indices below 2^20 are equal only if their indices and all three flags are equal |
| PageEntries.PdeNew4Kb | kernel/src/paging/entries.rs:36-44 | the entry keeps the 4 KiB-aligned part of the page-table address, has the page-size bit clear, its three flags read back exactly, and bits 3-6 and 8-11 are clear |
| PageEntries.PdeNew4Mb | kernel/src/paging/entries.rs:46-54 | the entry keeps the 4 MiB-aligned part of the frame address, bits 12-21 are clear, the page-size bit is set and its three flags read back exactly |
| PageEntries.PdeEmpty | kernel/src/paging/entries.rs:56-58 | the empty directory entry is not present, not writable, not user-accessible, not huge and has table address 0 |
| PageEntries.PdeTableAddrCarriesFlags | kernel/src/paging/entries.rs:36-62 | `table_addr` of an entry built from an aligned page-table address is that address with the flag bits or-ed in, so it equals the address exactly when all three flags are clear |
| PoolAllocator.InitialInv | kernel/src/paging/allocator.rs:11-18 | the allocator the kernel builds (empty free list, cursor at 0x400000) satisfies the allocator invariant with nothing handed out |
| PoolAllocator.Allocate | kernel/src/paging/allocator.rs:41-64 | the bump cursor never moves back: a pop from the free list returns its head and leaves the cursor where it was, and a bump, taken only on an empty list, moves it on by exactly one 4 KiB chunk; the arena end and memory are untouched |
| PoolAllocator.AllocKeepsInv | kernel/src/paging/allocator.rs:41-64 | `alloc` keeps the invariant and never returns null or a chunk still handed out; it returns the head of the free list when there is one, else the old cursor, and it fails with out-of-memory only when the free list is empty and the next chunk ends past the arena |
| PoolAllocator.FreeChainDistinct | kernel/src/paging/allocator.rs:47-48 | the chunks on a well-formed free chain are pairwise distinct |
| PoolAllocator.FreeKeepsInv | kernel/src/paging/allocator.rs:66-74 | freeing a handed-out chunk keeps the invariant, with that chunk now at the head of the free list and no longer handed out |
| PoolAllocator.FreeThenAlloc | kernel/src/paging/allocator.rs:41-74 | the free list is last in, first out: allocating right after freeing `p` returns `p` and restores the previous list head |
| PoolAllocator.BumpBlocksAligned | kernel/src/paging/allocator.rs:50-61 | with an empty free list the cursor moves by exactly one 4 KiB chunk, so chunk-aligned cursors give chunk-aligned blocks that lie inside the arena |
| PoolAllocator.Pool.constructor | kernel/src/paging/allocator.rs:31-39 | the new allocator has a null free list, the cursor at the arena start and the given end, and satisfies the invariant |
| PoolAllocator.Pool.Alloc | kernel/src/paging/allocator.rs:41-64 | the allocator's new state and result are those of `alloc` on the old state, the invariant is kept, and a returned block was not handed out before and is handed out now |
| PoolAllocator.Pool.Free | kernel/src/paging/allocator.rs:66-74 | the allocator's new state is that of `free` on the old state, the invariant is kept, and the chunk moves from the handed-out set to the head of the free list |
| CriticalSection.Wrap | kernel/src/critical_section.rs:3-12 | the closure runs exactly once, and the IF it finds when it is called is always clear; when IF was set on entry the sequence is cli, closure, sti and IF ends set, otherwise `wrap` never touches IF and IF ends as the closure left it |
| CriticalSection.WrapRestoresIf | kernel/src/critical_section.rs:3-12 | a closure that leaves IF alone makes `wrap` leave IF as it found it, and IF is set after `wrap` whenever it was set on entry or the closure set it |
| Pit.Constants | kernel/src/drivers/pit.rs:4-8 | the lowest reachable frequency `MAX_FREQ.div_ceil(MAX_DIVISOR)` is 19 Hz, and the control word for channel 0, low-then-high byte access, rate generator, binary counting is 0x34 |
| Pit.InitWrites | kernel/src/drivers/pit.rs:41-60 | an `init` that completes writes exactly three bytes: 0x34 to the command port, then the low and the high byte of `1193182 / frequency` modulo 65536 to channel 0 |
| Pit.MaxDivisorIsZero | kernel/src/drivers/pit.rs:54-60 | the largest divisor, 65536, passes the assertion and goes out as the two bytes 0x00 0x00 |
| Pit.InitRangeTooWide | kernel/src/drivers/pit.rs:41-55 | every frequency above 596591 Hz that `init`'s assertion accepts gives divisor 1, so with debug assertions `init` stops in `set_divisor` after writing only the control word |
| Pit.InitCorrectedNeverTrips | kernel/src/drivers/pit.rs:41-55 | with the frequency range capped at 1193182 / 2, every accepted frequency gives a divisor in [2, 65536] and `init` completes |
| Syscalls.UserBytes | kernel/src/syscalls.rs:29 | the buffer handed to `write` holds exactly ecx bytes, read from user memory starting at ebx |
| Syscalls.GenericHandler | kernel/src/syscalls.rs:21-38 | a call that returns changes only eax of the saved context; `exit`, which never returns, leaves the context as it was |
| Syscalls.ErrorAnswers | kernel/src/syscalls.rs:16-38 | an unknown call number answers -2 (0xfffffffe in eax) and does nothing else; `write` with a null buffer answers -1 and neither writes nor kills |
| Syscalls.WriteCall | kernel/src/syscalls.rs:25-31 | `write` with a non-null buffer hands the ecx bytes at ebx to the process's writer once and answers its count modulo 2^32, or -3 when the writer fails |
| Syscalls.WriteToFramebuffer | kernel/src/syscalls.rs:52-57 | when the process's writer takes the whole buffer, as the framebuffer writer does, `write` answers ecx |
| Syscalls.QueryAnswers | kernel/src/syscalls.rs:24-35 | `read` answers the keyboard driver's byte and calls 10, 11 and 12 answer the framebuffer address, width and height, with no other effect |
| Syscalls.ExitNeverReturns | kernel/src/syscalls.rs:44-50 | `exit` prints "EXIT WITH CODE ", the code in decimal and a newline, kills the process, enables interrupts and spins without returning, leaving eax untouched; the printed digits read back as the code |
| Userspace.TablesAgreeOnKeys | userspace/src/terminal.rs:65-171 | `key_to_symbol` and `key_to_upper_symbol` give a symbol for exactly the same keys: CapsLock changes which symbol a key types, never whether it types one |
| Userspace.AgreeOnLeadingVariants | userspace/src/terminal.rs:65-171 | the two tables agree on which of the first half of the key variants, in declaration order, type a symbol |
| Userspace.AgreeOnTrailingVariants | userspace/src/terminal.rs:65-171 | the two tables agree on which of the second half of the key variants type a symbol |
| Userspace.ControlKeysTypeNothing | userspace/src/terminal.rs:65-117 | neither table types a symbol for Backspace, Enter or CapsLock, the keys the shells act on instead |
| Userspace.SpaceTypesSpace | userspace/src/terminal.rs:114-168 | Space types a space with and without CapsLock: both key tables map it to the same byte (userspace/src/terminal.rs:114 and 168) |
| Userspace.WrittenAppends | userspace/src/terminal.rs:177-241 | the bytes written by two runs of writer calls one after the other are the bytes of the first followed by those of the second |
| Terminal.Prepare | userspace/src/terminal.rs:200-221 | the key's own action keeps the command index within the five-byte buffer |
| Terminal.Record | userspace/src/terminal.rs:223-235 | recording a typed symbol keeps the command index within the five-byte buffer |
| Terminal.Step | userspace/src/terminal.rs:190-240 | one turn of the loop keeps the command index within the five-byte buffer, so `command_buf[0..command_index]` is always in bounds |
| Terminal.UnknownCodeIgnored | userspace/src/terminal.rs:195-198 | a key code that names no key changes no state and makes no writer call |
| Terminal.TypingStep | userspace/src/terminal.rs:223-235 | a key that types a symbol echoes exactly that symbol, appends it to the command while fewer than five are recorded, leaves the state alone once five are, and keeps the CapsLock state |
| Terminal.EnterStep | userspace/src/terminal.rs:206-220 | Enter clears the screen exactly when the command is "clear", runs the animation exactly when it is "color", otherwise writes a newline; then it shows the green prompt and leaves a zeroed, empty command buffer with CapsLock unchanged |
| Terminal.BackspaceStep | userspace/src/terminal.rs:201-205 | Backspace steps back exactly when the writer's column is right of the seven-character prompt, and never touches the command buffer |
| Terminal.CapsLockStep | userspace/src/terminal.rs:237-239 | CapsLock flips the table selection and neither writes nor records anything |
| Terminal.Run | userspace/src/terminal.rs:190-240 | a finite run of keys keeps the command index within the buffer |
| Terminal.NonEnterStep | userspace/src/terminal.rs:200-240 | any turn but Enter keeps the recorded command equal to the first five bytes of everything echoed since the last Enter |
| Terminal.RecordsFirstFive | userspace/src/terminal.rs:190-240 | between two Enters the command buffer holds the first five symbols echoed: later symbols are echoed but not recorded, and Backspace erases on screen but not in the buffer |
| Terminal.EnterRunsFirstFive | userspace/src/terminal.rs:190-221 | after the prompt, a line of keys and then Enter clears the screen exactly when the first five symbols echoed are "clear" (so "clearXYZ" clears too) and runs the animation exactly when they are "color" |
| Terminal.EntryLoop.constructor | userspace/src/terminal.rs:186-188 | the loop starts with CapsLock off, a zeroed five-byte command buffer and index 0 |
| Terminal.EntryLoop.HandleKey | userspace/src/terminal.rs:190-240 | one turn updates the variables in place and makes the writer calls exactly as `Step` describes |
| Terminal.EntryLoop.PrepareNow | userspace/src/terminal.rs:200-221 | Backspace and Enter act in place as `Prepare` describes, zeroing the command array on Enter |
| Terminal.EntryLoop.RecordNow | userspace/src/terminal.rs:223-235 | the typed symbol is stored into the command array in place and echoed as `Record` describes |
| Terminal.EntryLoop.StoreNow | userspace/src/terminal.rs:229-235 | the state and the echo afterwards are those of `Store`: a symbol is stored in place and the index moves on only while the five-byte buffer has room, and every symbol is echoed |
| Terminal.EntryLoop.Session | userspace/src/terminal.rs:177-241 | `entry` on a finite run of keys makes the start-up calls (clear, green prompt, white) and then exactly the calls of every turn in order, and ends in the state `Run` gives |
| Shell.Prepare | userspace/src/lib.rs:173-203 | the key's own action keeps the command index at most the last slot |
| Shell.Record | userspace/src/lib.rs:205-224 | recording a typed symbol keeps the command index at most the last slot |
| Shell.Step | userspace/src/lib.rs:163-229 | one turn of the loop keeps the command index at most the last slot, so every write into `command_buf` is in bounds |
| Shell.TypingStep | userspace/src/lib.rs:205-224 | a key that types a symbol echoes exactly that symbol; below the last slot it is stored in the next slot and the index moves on, at the last slot it overwrites that slot and clears the wait flag |
| Shell.EnterStep | userspace/src/lib.rs:179-202 | Enter clears the screen exactly when the wait flag is clear and the buffer spells "clear" in any mix of cases, and otherwise writes a newline; then it shows the green prompt, resets the index and sets the wait flag, and keeps the buffer's bytes |
| Shell.BackspaceStep | userspace/src/lib.rs:174-178 | Backspace steps back exactly when the writer's column is right of the seven-character prompt, and never touches the command state |
| Shell.CapsLockStep | userspace/src/lib.rs:226-228 | CapsLock flips the table selection and neither writes nor records anything |
| Shell.Run | userspace/src/lib.rs:163-229 | a finite run of keys keeps the command index at most the last slot |
| Shell.Filled | userspace/src/lib.rs:205-224 | the buffer reconstructed from the symbols typed since the last Enter always has five bytes |
| Shell.RecordAbsorbs | userspace/src/lib.rs:212-220 | storing one more typed symbol turns the state for the symbols typed so far into the state for those symbols plus the new one |
| Shell.NonEnterStep | userspace/src/lib.rs:173-229 | any turn but Enter keeps the state equal to the one determined by the symbols echoed since the last Enter: the first four in slots 0-3, the latest in slot 4 once there are five, and the wait flag set while there are fewer than five |
| Shell.AbsorbsLine | userspace/src/lib.rs:163-229 | between two Enters the shell's index, wait flag and buffer are exactly those determined by all the symbols echoed so far |
| Shell.EnterAfterLine | userspace/src/lib.rs:163-229 | after the prompt, a line of keys and then Enter clears the screen exactly when at least five symbols were echoed, the first four are "clea" and the last is "r", each in either case, so "clearer" and "cleanr" clear while "clears" does not |
| Shell.EntryLoop.constructor | userspace/src/lib.rs:158-161 | the loop starts with CapsLock off, a zeroed five-byte command buffer, index 0 and the wait flag set |
| Shell.EntryLoop.HandleKey | userspace/src/lib.rs:163-229 | one turn updates the variables in place and makes the writer calls exactly as `Step` describes |
| Shell.EntryLoop.PrepareNow | userspace/src/lib.rs:173-203 | Backspace and Enter act in place as `Prepare` describes |
| Shell.EntryLoop.RecordNow | userspace/src/lib.rs:205-224 | the typed symbol is stored into the command array in place and echoed as `Record` describes |
| Shell.EntryLoop.StoreNow | userspace/src/lib.rs:211-223 | the state and the echo afterwards are those of `Store`: a symbol below the last slot is stored and the index moves on; at the last slot the symbol overwrites that slot and `command_wait_flag` is cleared; every symbol is echoed |
| Shell.EntryLoop.Session | userspace/src/lib.rs:149-230 | `entry` on a finite run of keys makes the start-up calls (clear, green prompt, white) and then exactly the calls of every turn in order, and ends in the state `Run` gives |

## Left out

- Inline and naked assembly: `collect_ctx`/`collect_ctx_push`, `lidt`, `ltr`, `iretd`, the bodies of `jump_to_userspace`, `EFlags::read`/`write`, `rdtsc`. These are CPU effects. IF is a boolean field of `Machine.InterruptFlag`, and register values are parameters.
- Port I/O with no state of its own: the PS/2 `init` functions, `TextMode80x25::disable_cursor`, the PIC and UART drivers. The PIT is modelled only as the bytes it is sent.
- `Idt::load` in both interrupt tables, and the TSS `ltr`: one instruction each.
- The HSV colour animation of `userspace/src/terminal.rs:243-290` uses floating point and busy-wait timing. It is the single `Userspace.Command` value `Animation`. `tsc_sleep` and the busy wait in `get_key` are left out, and a shell's key source is a finite sequence of already-read keys.
- `Terminal.EntryLoop.Session` and `Shell.EntryLoop.Session`: `entry` loops forever. The model runs it on a finite sequence of keys and says nothing about the keys after them.
- The writer calls the shells make are `Userspace.Command` values. They are not composed with `TextBuffer.Writer`, so a shell's screen is not modelled. The writer's column `tbw.x` is given with each key.
- `Key::from_repr` and the `Key` discriminants are not part of this model. `Keyboard.Read` takes the discriminant as a function. The shells take the decoded key, with None for a code that names no key.
- The kernel keyboard driver imports the kernel's own parser module, which is not part of this model. The parser of `src/drivers/ps2/parser.rs` stands in for it.
- The letter-case relation of the two key tables (each upper-case letter is the lower-case one minus 32) and the count of 48 keys that type a symbol are not proved. Only the agreement on which keys type a symbol is.
- The 8×16 font (`utils/src/font.rs`) is a function parameter.
- `core::fmt` adapters (`write!` into the VGA writer and the text buffer, `TextBufferWritter::flush`), the colour macros as code, the panic handlers and logging. `{}` formatting of an unsigned integer is modelled (`Effects.Decimal`), as the syscall `exit` message needs it.
- `IntSafe::get`, the `Deref` implementations of both guards and `IntSafe`'s `Display`: the protected data is not modelled, only the lock state and IF.
- `src/ringbuffer.rs` `pop_back` reads the next write slot, which may be uninitialised, so it has no contract to state. `src/circular_buffer.rs` is not part of this model for the same reason.
- The 256 redirector functions of `src/idt.rs` beyond `interrupt_handler` are not modelled one by one. `LegacyIdt.PanicNamesVector` covers the shared body.
- Paging set-up (`init_user_paging`, `init_args_pages`, `enable_stack_pages`, `enable_user_pages`, `enable_paging`, `disable_paging`), `get_cur_process`, `Process::kill` and the process's output sink are opaque calls. The model states only which of them the core calls, in which order, and with which arguments.
- Io.WriteAll: requires every write to make progress. A writer that keeps answering `Ok(0)` makes `write_all` loop forever, and that non-termination is not modelled. Io.ReadExact has the same requirement for `read`.
- RingBuffer.Buffer.constructor: requires SIZE > 0. With SIZE = 0 the source's `% SIZE` panics.
- Vga.Vga.constructor: `Vga::new` does not clear the screen, so the cells start as the given screen contents.
- TextBuffer.Screen.ScrollDown: requires a framebuffer of at least 400 pixel rows, the 25 text rows the source's loop bounds assume. TextBuffer.Writer.WriteNow has the same requirement when it scrolls.
- ConsoleVga.TextMode80x25.SetCharacter: requires the cell to lie inside the 2000-cell grid. The source writes through a raw pointer and does not check.
- PoolAllocator.Pool.Free: requires the chunk to be one that was handed out and not yet freed. A double free corrupts the free list, and the invariant does not cover it.
- Gdt.SetBase and Gdt.SetLimit: modelled as functions from a descriptor to the patched descriptor, not as updates of a table entry in place. The kernel patches only the TSS entry, once, at boot (`Gdt.TssPatched`).

## Findings

| source | as written | input that shows it | evidently intended | confidence | as-written member | corrected member |
|---|---|---|---|---|---|---|
| kernel/src/drivers/pit.rs:41-55 | `init` accepts 19 to 1193182 Hz, but `set_divisor` asserts a divisor of at least 2 | `init(600000)` with debug assertions: the divisor is 1193182 / 600000 = 1, and `set_divisor`'s assertion fails after the control word was written | accept frequencies up to 1193182 / 2 = 596591 Hz only | not executed | Pit.InitRangeTooWide | Pit.InitCorrectedNeverTrips |
| src/console/vga.rs:126-128 | `get_bg` calls `Color::from_u8(code & 0xf0)` without shifting down | `ColorCode::new(White, Blue)` is 0x1f, `from_u8(0x10)` is None and the `unwrap` panics | `Color::from_u8(code >> 4)` | not executed | ConsoleVga.GetBgPanicsUnlessBlack | ConsoleVga.GetBgCorrectedInverts |
| utils/src/textbuffer.rs:98-100 | `set_next_bg` assigns the foreground field | `set_next_bg(0x0000ff)` then writing "a": the glyph is drawn blue on the old background | assign the background field | not executed | TextBuffer.SetNextBgChangesForeground | TextBuffer.SetNextBgCorrectedPaints |
| src/ringbuffer.rs:26-52 | `full()` tests `(start + 1) % SIZE == end`, which holds when exactly one element is stored | on a new buffer of 16 slots, `push_back(a)` then `push_back(b)` returns `Some(a)`, and the buffer then holds only b | `(end + 1) % SIZE == start`, full at SIZE − 1 elements | not executed | RingBuffer.SecondPushDropsFirst | RingBuffer.CorrectedPushIsFifo |
| src/irq.rs:24-46 | `unlock` counts down and then panics when the count is 0 | `lock()` then dropping the guard on a free `IrqSafe`: the count goes 1 → 0 and `unlock` panics, so the `sti` below is unreachable | panic only when the count was already 0, and restore IF when the last holder leaves | not executed | Irq.OutermostUnlockPanics | Irq.CorrectedUnlockRestoresIf |
