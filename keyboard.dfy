/** The kernel's PS/2 keyboard driver (kernel/src/drivers/ps2/keyboard.rs): the interrupt
    handler feeds the byte read from the data port to the scan-code parser and queues
    every key press; `read` hands queued keys to the read system call, oldest first. The
    kernel's own parser module is not part of this model; the parser of
    src/drivers/ps2/parser.rs stands in for it. The numbering of keys (`discriminant`)
    lives in a file that is not part of this model and is a parameter here. */
module Keyboard {
  import opened Machine
  import opened Keys
  import KeyParser
  import Ringbuf

  /** The queue's capacity `Ringbuf<Key, 1024>`. */
  const BUFFER_SIZE: nat := 1024

  /** The global `PARSER` and `BUFFER`. */
  class Driver {
    const parser: KeyParser.Parser
    const buffer: Ringbuf.Buffer<Key>

    predicate Valid()
      reads this, buffer, buffer.slots
    {
      buffer.Valid() && buffer.slots.Length == BUFFER_SIZE
    }

    constructor ()
      ensures Valid() && parser.state == KeyParser.Normal && buffer.count == 0
      ensures fresh(parser) && fresh(buffer) && fresh(buffer.slots)
    {
      parser := new KeyParser.Parser();
      buffer := new Ringbuf.Buffer<Key>(BUFFER_SIZE, Esc);
    }

    /** `int_handler`, given the byte read from the data port: only a completed press
        reaches the queue; releases, incomplete sequences and errors leave it alone. */
    method IntHandler(code: byte)
      requires Valid()
      modifies parser, buffer, buffer.slots
      ensures Valid()
      ensures parser.state == KeyParser.Parse(old(parser.state), code).0
      ensures var r := KeyParser.Parse(old(parser.state), code).1;
        if r.Ok? && r.event.Pressed? then buffer.State() == Ringbuf.Pushed(old(buffer.State()), r.event.key)
        else buffer.State() == old(buffer.State())
    {
      var r := parser.ParseByte(code);
      if r.Ok? && r.event.Pressed? {
        buffer.Push(r.event.key);
      }
    }

    /** `read`: the number of the oldest queued key, which is removed, or 0 with the
        queue unchanged when it is empty. */
    method Read(discriminant: Key -> byte) returns (v: byte)
      requires Valid()
      modifies buffer
      ensures Valid()
      ensures var (k, s) := Ringbuf.Popped(old(buffer.State()));
        buffer.State() == s && v == (if k.Some? then discriminant(k.value) else 0)
    {
      var k := buffer.Pop();
      v := if k.Some? then discriminant(k.value) else 0;
    }
  }

  /** What the read system call sees: `Read` on an empty queue gives 0 and changes
      nothing; on a queue holding q, it gives the number of q's first key and leaves the
      rest of q queued. */
  lemma ReadReturnsOldest(s: Ringbuf.RingState<Key>, q: seq<Key>, discriminant: Key -> byte)
    requires Ringbuf.Holds(s, q)
    ensures var (k, t) := Ringbuf.Popped(s);
      && (q == [] ==> k.None? && t == s)
      && (q != [] ==> k == Some(q[0]) && Ringbuf.Holds(t, q[1..]))
  {
    if q != [] {
      Ringbuf.PopTakesOldest(s, q);
    }
  }

  /** After a press of a one-byte key from a quiet parser, the queue holds that key at its
      end (while it had room). */
  lemma PressQueuesKey(s: Ringbuf.RingState<Key>, q: seq<Key>, c: byte, k: Key)
    requires Ringbuf.Holds(s, q) && |q| + 1 < |s.slots|
    requires KeyParser.MapNormal(c) == Some(k)
    ensures KeyParser.Parse(KeyParser.Normal, c) == (KeyParser.Normal, KeyParser.Ok(Pressed(k)))
    ensures Ringbuf.Holds(Ringbuf.Pushed(s, k), q + [k])
  {
    KeyParser.MakeAndBreak(c, k);
    Ringbuf.PushAppends(s, q, k);
  }
}
