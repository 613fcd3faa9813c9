/** The first-generation ring buffer of src/ringbuffer.rs: SIZE slots between a `start`
    and an `end` index, empty when they are equal. `push_back` first drops the front
    element when the buffer is `full()`, and `full()` tests `(start + 1) % SIZE == end`,
    which holds when exactly one element is stored: as written the buffer never holds
    more than one element. `RingBuffer.PushBackCorrected` tests the end running into the
    start instead, and gives a FIFO queue of SIZE − 1 elements. */
module RingBuffer {
  import opened Machine
  import Ringbuf

  /** The slots (slots never written hold whatever the model starts them with) and the
      two indices. */
  datatype RingState<T> = RingState(slots: seq<T>, start: nat, end: nat)

  predicate Indices<T>(s: RingState<T>)
  {
    |s.slots| > 0 && s.start < |s.slots| && s.end < |s.slots|
  }

  /** `available()` */
  predicate Available<T>(s: RingState<T>) { s.start != s.end }

  /** `full()` as written. */
  predicate Full<T>(s: RingState<T>)
    requires Indices(s)
  {
    (s.start + 1) % |s.slots| == s.end
  }

  /** `pop_front()`: the front element and `start` advanced, or None and no change. */
  function PopFront<T>(s: RingState<T>): (r: (Option<T>, RingState<T>))
    requires Indices(s)
    ensures Indices(r.1)
    ensures r.0.None? <==> !Available(s)
    ensures r.0.None? ==> r.1 == s
    ensures r.0.Some? ==> (r.0.value == s.slots[s.start]
      && r.1 == s.(start := (s.start + 1) % |s.slots|))
  {
    if Available(s) then (Some(s.slots[s.start]), s.(start := (s.start + 1) % |s.slots|))
    else (None, s)
  }

  /** `push_back(item)` as written: the element dropped to make room, if `full()` held. */
  function PushBack<T>(s: RingState<T>, item: T): (r: (Option<T>, RingState<T>))
    requires Indices(s)
    ensures Indices(r.1) && |r.1.slots| == |s.slots|
  {
    var (dropped, t) := if Full(s) then PopFront(s) else (None, s);
    (dropped, t.(slots := t.slots[t.end := item], end := (t.end + 1) % |t.slots|))
  }

  /** The number of elements stored: the distance from `start` to `end`. */
  function Count<T>(s: RingState<T>): (n: nat)
    requires Indices(s)
    ensures n < |s.slots|
  {
    if s.end >= s.start then s.end - s.start else s.end + |s.slots| - s.start
  }

  /** With two or more slots, `full()` holds exactly when one element is stored, and
      `available()` exactly when at least one is. */
  lemma FullMeansOne<T>(s: RingState<T>)
    requires Indices(s) && |s.slots| >= 2
    ensures Full(s) <==> Count(s) == 1
    ensures Available(s) <==> Count(s) > 0
  {
    var n := |s.slots|;
    if s.start + 1 == n {
      assert (s.start + 1) % n == 0;
    } else {
      assert (s.start + 1) % n == s.start + 1;
    }
  }

  /** As written, a push onto a buffer holding at most one element drops that element
      (returning it) and leaves exactly the new one: the buffer never holds two. */
  lemma PushKeepsOnlyNewest<T>(s: RingState<T>, item: T)
    requires Indices(s) && |s.slots| >= 2 && Count(s) <= 1
    ensures var (dropped, t) := PushBack(s, item);
      && Count(t) == 1
      && PopFront(t).0 == Some(item)
      && (Count(s) == 1 ==> dropped == Some(s.slots[s.start]))
      && (Count(s) == 0 ==> dropped.None?)
  {
    var n := |s.slots|;
    FullMeansOne(s);
    Ringbuf.WrapIsMod(s.start + 1, n);
    var mid := if Full(s) then PopFront(s).1 else s;
    assert mid.start == mid.end;
    var t := PushBack(s, item).1;
    assert t == mid.(slots := mid.slots[mid.end := item], end := (mid.end + 1) % n);
    Ringbuf.WrapIsMod(mid.end + 1, n);
    FullMeansOne(t);
  }

  /** The concrete case: two pushes onto a new buffer of any size from two up. The
      second returns the first element although there was room, and a pop then yields
      the second element and leaves the buffer empty. */
  lemma SecondPushDropsFirst<T>(slots: seq<T>, a: T, b: T)
    requires |slots| >= 2
    ensures var s0 := RingState(slots, 0, 0);
      var (d1, s1) := PushBack(s0, a);
      var (d2, s2) := PushBack(s1, b);
      && d1.None? && d2 == Some(a)
      && PopFront(s2).0 == Some(b) && !Available(PopFront(s2).1)
  {
    var s0 := RingState(slots, 0, 0);
    var s1 := PushBack(s0, a).1;
    PushKeepsOnlyNewest(s0, a);
    assert s1.start == 0 && s1.end == 1 && s1.slots[0] == a;
    assert Full(s1) by { assert (0 + 1) % |slots| == 1; }
    var s2 := PushBack(s1, b).1;
    assert s2.start == 1 && s2.slots[1] == b;
    assert s2.end == 2 % |slots|;
    if |slots| == 2 {
      assert 2 % |slots| == 0 && (1 + 1) % |slots| == 0;
    } else {
      assert 2 % |slots| == 2 && (1 + 1) % |slots| == 2;
    }
  }

  /** The intended fullness test: one more element would make `end` run into `start`. */
  predicate FullCorrected<T>(s: RingState<T>)
    requires Indices(s)
  {
    (s.end + 1) % |s.slots| == s.start
  }

  /** `push_back` with the corrected test. */
  function PushBackCorrected<T>(s: RingState<T>, item: T): (r: (Option<T>, RingState<T>))
    requires Indices(s)
    ensures Indices(r.1) && |r.1.slots| == |s.slots|
  {
    var (dropped, t) := if FullCorrected(s) then PopFront(s) else (None, s);
    (dropped, t.(slots := t.slots[t.end := item], end := (t.end + 1) % |t.slots|))
  }

  /** The queue a state holds, oldest first: the elements from `start` up to `end`. */
  ghost predicate Holds<T>(s: RingState<T>, q: seq<T>)
  {
    && Indices(s)
    && |q| < |s.slots|
    && s.end == Ringbuf.Wrap(s.start + |q|, |s.slots|)
    && forall k :: 0 <= k < |q| ==> q[k] == s.slots[Ringbuf.Wrap(s.start + k, |s.slots|)]
  }

  /** `new()`: empty. */
  lemma NewHoldsNothing<T>(slots: seq<T>)
    requires |slots| > 0
    ensures Holds(RingState(slots, 0, 0), [])
  {
  }

  /** `available()` tells whether anything is queued, and the corrected test whether
      SIZE − 1 elements are. */
  lemma {:induction false} HoldsTests<T>(s: RingState<T>, q: seq<T>)
    requires Holds(s, q)
    ensures Available(s) <==> |q| > 0
    ensures FullCorrected(s) <==> |q| == |s.slots| - 1
  {
    var n := |s.slots|;
    Ringbuf.WrapIsMod(s.end + 1, n);
  }

  /** `pop_front` returns the oldest element and leaves the rest, or None on empty. */
  lemma {:induction false} PopFrontTakesOldest<T>(s: RingState<T>, q: seq<T>)
    requires Holds(s, q)
    ensures q == [] ==> PopFront(s) == (None, s)
    ensures q != [] ==> PopFront(s).0 == Some(q[0]) && Holds(PopFront(s).1, q[1..])
  {
    HoldsTests(s, q);
    if q != [] {
      var n := |s.slots|;
      var r := PopFront(s).1;
      Ringbuf.WrapIsMod(s.start + 1, n);
      assert q[0] == s.slots[Ringbuf.Wrap(s.start + 0, n)];
      forall k | 0 <= k < |q| - 1
        ensures q[1..][k] == r.slots[Ringbuf.Wrap(r.start + k, n)]
      {
        assert q[1..][k] == q[k + 1];
      }
    }
  }

  /** Appending at `end` to a queue with room keeps the queue, one element longer. */
  lemma {:induction false} WriteAppends<T>(s: RingState<T>, q: seq<T>, item: T)
    requires Holds(s, q) && |q| + 1 < |s.slots|
    ensures Holds(s.(slots := s.slots[s.end := item], end := (s.end + 1) % |s.slots|), q + [item])
  {
    var n := |s.slots|;
    var r := s.(slots := s.slots[s.end := item], end := (s.end + 1) % n);
    Ringbuf.WrapIsMod(s.end + 1, n);
    assert r.end == Ringbuf.Wrap(s.start + |q| + 1, n);
    forall k | 0 <= k < |q| + 1
      ensures (q + [item])[k] == r.slots[Ringbuf.Wrap(r.start + k, n)]
    {
    }
  }

  /** With the corrected test the buffer is a FIFO queue of SIZE − 1 elements: a push
      appends, and drops (and returns) the oldest element exactly when SIZE − 1 are
      already queued. */
  lemma {:induction false} CorrectedPushIsFifo<T>(s: RingState<T>, q: seq<T>, item: T)
    requires Holds(s, q) && |s.slots| >= 2
    ensures |q| < |s.slots| - 1 ==>
      PushBackCorrected(s, item).0.None? && Holds(PushBackCorrected(s, item).1, q + [item])
    ensures |q| == |s.slots| - 1 ==>
      PushBackCorrected(s, item).0 == Some(q[0]) && Holds(PushBackCorrected(s, item).1, q[1..] + [item])
  {
    HoldsTests(s, q);
    if |q| < |s.slots| - 1 {
      WriteAppends(s, q, item);
    } else {
      PopFrontTakesOldest(s, q);
      WriteAppends(PopFront(s).1, q[1..], item);
    }
  }

  /** `RingBuffer<T, SIZE>` over an array of SIZE slots, proved against `PushBack` and
      `PopFront` as written. */
  class Buffer<T> {
    const arr: array<T>
    var start: nat
    var end: nat

    function State(): RingState<T>
      reads this, arr
    {
      RingState(arr[..], start, end)
    }

    predicate Valid()
      reads this, arr
    {
      Indices(State())
    }

    /** `RingBuffer::new()`; `fill` stands for the uninitialised slots. */
    constructor (size: nat, fill: T)
      requires size > 0
      ensures Valid() && fresh(arr)
      ensures State() == RingState(seq(size, _ => fill), 0, 0)
    {
      arr := new T[size](_ => fill);
      start, end := 0, 0;
    }

    /** `available()` */
    function IsAvailable(): (r: bool)
      reads this, arr
      ensures r <==> Available(State())
    {
      start != end
    }

    /** `full()` */
    function IsFull(): (r: bool)
      requires Valid()
      reads this, arr
      ensures r <==> Full(State())
    {
      (start + 1) % arr.Length == end
    }

    method PopFrontNow() returns (r: Option<T>)
      requires Valid()
      modifies this
      ensures Valid() && (r, State()) == PopFront(old(State()))
    {
      if start == end {
        return None;
      }
      r := Some(arr[start]);
      start := (start + 1) % arr.Length;
    }

    method PushBackNow(item: T) returns (r: Option<T>)
      requires Valid()
      modifies this, arr
      ensures Valid() && (r, State()) == PushBack(old(State()), item)
    {
      r := None;
      if IsFull() {
        r := PopFrontNow();
      }
      arr[end] := item;
      end := (end + 1) % arr.Length;
    }
  }
}
