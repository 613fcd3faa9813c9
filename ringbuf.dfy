/** The fixed-capacity ring buffer of utils/src/ringbuf.rs that queues keyboard events.
    `push` never refuses and `count` grows without a cap. When the incremented write
    index equals the read index, `push` moves the read index along; the comparison is
    made before the write index is reduced modulo N, so a write index that wraps to 0
    never moves a read index of 0. Below N−1 elements the buffer is a FIFO queue; the
    push that makes N elements behaves in one of two ways, depending on whether the
    read index is 0 (`PushOntoReadZero`, `PushOntoReadNonZero`). */
module Ringbuf {
  import opened Machine

  /** The buffer's fields: its N slots and the three counters. Slots that were never
      written hold whatever value the model starts them with. */
  datatype RingState<T> = RingState(slots: seq<T>, readInd: nat, writeInd: nat, count: nat)

  predicate Indices<T>(s: RingState<T>)
  {
    |s.slots| > 0 && s.readInd < |s.slots| && s.writeInd < |s.slots|
  }

  /** `push` */
  function Pushed<T>(s: RingState<T>, value: T): (r: RingState<T>)
    requires Indices(s)
    ensures Indices(r) && |r.slots| == |s.slots| && r.count == s.count + 1
    ensures r.writeInd == (s.writeInd + 1) % |s.slots|
    ensures r.readInd == (if s.writeInd + 1 == s.readInd then (s.readInd + 1) % |s.slots| else s.readInd)
    ensures r.slots == s.slots[s.writeInd := value]
  {
    var n := |s.slots|;
    var w := s.writeInd + 1;
    var rd := if w == s.readInd then s.readInd + 1 else s.readInd;
    WrapIsMod(rd, n);
    WrapIsMod(w, n);
    RingState(s.slots[s.writeInd := value], rd % n, w % n, s.count + 1)
  }

  /** `pop`: the value and the new state, or None and no change when count is 0. */
  function Popped<T>(s: RingState<T>): (r: (Option<T>, RingState<T>))
    requires Indices(s)
    ensures Indices(r.1)
    ensures r.0.None? <==> s.count == 0
    ensures r.0.None? ==> r.1 == s
    ensures r.0.Some? ==> r.0.value == s.slots[s.readInd] && r.1.count == s.count - 1
    ensures r.0.Some? ==> r.1 == s.(readInd := (s.readInd + 1) % |s.slots|, count := s.count - 1)
  {
    if s.count == 0 then (None, s)
    else (Some(s.slots[s.readInd]), s.(readInd := (s.readInd + 1) % |s.slots|, count := s.count - 1))
  }

  predicate IsEmpty<T>(s: RingState<T>) { s.count == 0 }

  /** Index `i` reduced into [0, n) when it is less than 2n. */
  function Wrap(i: nat, n: nat): nat
  {
    if i < n then i else i - n
  }

  /** For such indices, reduction is the remainder. */
  lemma WrapIsMod(i: nat, n: nat)
    requires 0 < n && i < 2 * n
    ensures i % n == Wrap(i, n)
  {
    if i >= n {
      assert i == (i - n) + n * 1;
    }
  }

  /** The queue a state holds, oldest first, when it holds fewer than N elements: `count`
      elements from the read index on, and the write index just past them. */
  ghost predicate Holds<T>(s: RingState<T>, q: seq<T>)
  {
    && Indices(s)
    && s.count == |q| < |s.slots|
    && s.writeInd == Wrap(s.readInd + s.count, |s.slots|)
    && forall k :: 0 <= k < |q| ==> q[k] == s.slots[Wrap(s.readInd + k, |s.slots|)]
  }

  /** `new`: empty. */
  lemma EmptyHolds<T>(slots: seq<T>)
    requires |slots| > 0
    ensures Holds(RingState(slots, 0, 0, 0), [])
  {
  }

  /** Below N−1 elements a push appends: the buffer is a FIFO queue while it never holds
      N elements. */
  lemma {:induction false} PushAppends<T>(s: RingState<T>, q: seq<T>, value: T)
    requires Holds(s, q) && |q| + 1 < |s.slots|
    ensures Holds(Pushed(s, value), q + [value])
  {
    var n := |s.slots|;
    var r := Pushed(s, value);
    WrapIsMod(s.writeInd + 1, n);
    WrapIsMod(s.readInd, n);
    assert r.readInd == s.readInd;
    assert r.writeInd == Wrap(s.readInd + |q| + 1, n);
    forall k | 0 <= k < |q| + 1
      ensures (q + [value])[k] == r.slots[Wrap(r.readInd + k, n)]
    {
    }
  }

  /** A pop from a non-empty buffer returns the oldest element and leaves the rest. */
  lemma {:induction false} PopTakesOldest<T>(s: RingState<T>, q: seq<T>)
    requires Holds(s, q) && |q| > 0
    ensures Popped(s).0 == Some(q[0]) && Holds(Popped(s).1, q[1..])
  {
    var n := |s.slots|;
    var r := Popped(s).1;
    WrapIsMod(s.readInd + 1, n);
    assert q[0] == s.slots[Wrap(s.readInd + 0, n)];
    forall k | 0 <= k < |q| - 1
      ensures q[1..][k] == r.slots[Wrap(r.readInd + k, n)]
    {
      assert q[1..][k] == q[k + 1];
    }
  }

  /** The values that `m` successive pops return. */
  function Drain<T>(s: RingState<T>, m: nat): (r: seq<T>)
    requires Indices(s) && m <= s.count
    ensures |r| == m
    decreases m
  {
    if m == 0 then [] else [Popped(s).0.value] + Drain(Popped(s).1, m - 1)
  }

  /** Up to N successive pops read the slots from the read index on, wrapping once. */
  lemma {:induction false} DrainReads<T>(s: RingState<T>, m: nat)
    requires Indices(s) && m <= s.count && m <= |s.slots|
    ensures forall k :: 0 <= k < m ==> Drain(s, m)[k] == s.slots[Wrap(s.readInd + k, |s.slots|)]
    decreases m
  {
    if m > 0 {
      var n := |s.slots|;
      var t := Popped(s).1;
      WrapIsMod(s.readInd + 1, n);
      DrainReads(t, m - 1);
      forall k | 0 <= k < m
        ensures Drain(s, m)[k] == s.slots[Wrap(s.readInd + k, n)]
      {
        if k > 0 {
          assert Drain(s, m)[k] == Drain(t, m - 1)[k - 1];
          assert Wrap(t.readInd + (k - 1), n) == Wrap(s.readInd + k, n);
        }
      }
    }
  }

  /** From N−1 elements with the read index at 0, a push fills the last free slot and
      moves no index onto another: N pops return the queue and then the new value. */
  lemma PushOntoReadZero<T>(s: RingState<T>, q: seq<T>, value: T)
    requires Holds(s, q) && |q| == |s.slots| - 1 && s.readInd == 0
    ensures var r := Pushed(s, value);
      && r.readInd == 0 && r.writeInd == 0 && r.count == |s.slots|
      && Drain(r, |s.slots|) == q + [value]
  {
    var n := |s.slots|;
    var r := Pushed(s, value);
    assert s.writeInd == n - 1;
    WrapIsMod(n, n);
    DrainReads(r, n);
    forall k | 0 <= k < n
      ensures Drain(r, n)[k] == (q + [value])[k]
    {
      assert Wrap(r.readInd + k, n) == k;
      if k < n - 1 {
        assert q[k] == s.slots[Wrap(s.readInd + k, n)];
      }
    }
  }

  /** From N−1 elements with the read index elsewhere, the write index runs into the read
      index and pushes it one on, yet `count` still becomes N and the oldest element is
      not overwritten: N pops return the queue without its oldest element, then the new
      value, and then the oldest element last. */
  lemma PushOntoReadNonZero<T>(s: RingState<T>, q: seq<T>, value: T)
    requires Holds(s, q) && |q| == |s.slots| - 1 && s.readInd > 0
    ensures var r := Pushed(s, value);
      && r.readInd == (s.readInd + 1) % |s.slots| && r.writeInd == s.readInd && r.count == |s.slots|
      && Drain(r, |s.slots|) == q[1..] + [value] + [q[0]]
  {
    var n, i := |s.slots|, s.readInd;
    var r := Pushed(s, value);
    assert s.writeInd == i - 1;
    WrapIsMod(i + 1, n);
    WrapIsMod(i, n);
    DrainReads(r, n);
    var expected := q[1..] + [value] + [q[0]];
    forall k | 0 <= k < n
      ensures Drain(r, n)[k] == expected[k]
    {
      if k < n - 2 {
        assert expected[k] == q[k + 1];
        assert Wrap(r.readInd + k, n) == Wrap(i + (k + 1), n);
        assert q[k + 1] == s.slots[Wrap(i + (k + 1), n)];
      } else if k == n - 2 {
        assert Wrap(r.readInd + k, n) == i - 1;
      } else {
        assert Wrap(r.readInd + k, n) == i;
        assert q[0] == s.slots[Wrap(i + 0, n)];
      }
    }
  }

  /** A full buffer still accepts a push, and `count` passes N: it is not capped. */
  lemma CountUncapped<T>(s: RingState<T>, value: T)
    requires Indices(s) && s.count == |s.slots|
    ensures Pushed(s, value).count == |s.slots| + 1
  {
  }

  /** `Ringbuf<T, N>`: the slots are an array; `count`, `is_empty` and the pushes and pops
      are proved against the functions above. */
  class Buffer<T> {
    const slots: array<T>
    var readInd: nat
    var writeInd: nat
    var count: nat

    function State(): RingState<T>
      reads this, slots
    {
      RingState(slots[..], readInd, writeInd, count)
    }

    predicate Valid()
      reads this, slots
    {
      Indices(State())
    }

    /** `Ringbuf::new()` with N slots; `fill` stands for the uninitialised contents. */
    constructor (n: nat, fill: T)
      requires n > 0
      ensures Valid() && fresh(slots)
      ensures State() == RingState(seq(n, _ => fill), 0, 0, 0)
    {
      slots := new T[n](_ => fill);
      readInd, writeInd, count := 0, 0, 0;
    }

    method Push(value: T)
      requires Valid()
      modifies this, slots
      ensures Valid()
      ensures State() == Pushed(old(State()), value)
    {
      slots[writeInd] := value;
      writeInd := writeInd + 1;
      if writeInd == readInd {
        readInd := readInd + 1;
      }
      writeInd := writeInd % slots.Length;
      readInd := readInd % slots.Length;
      count := count + 1;
    }

    method Pop() returns (r: Option<T>)
      requires Valid()
      modifies this
      ensures Valid()
      ensures (r, State()) == Popped(old(State()))
    {
      if count == 0 {
        return None;
      }
      r := Some(slots[readInd]);
      readInd := (readInd + 1) % slots.Length;
      count := count - 1;
    }

    function Count(): (c: nat)
      reads this
      ensures c == count
    {
      count
    }

    function IsEmptyNow(): (b: bool)
      reads this, slots
      ensures b <==> IsEmpty(State())
    {
      count == 0
    }
  }
}
