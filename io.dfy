/** The `Write::write_all` and `Read::read_exact` loops of src/io.rs: call the underlying
    `write` (or `read`) on the part of the buffer not yet done until the counts add up to
    the buffer's length, and pass the first error straight back. A writer or reader is
    modelled by its replies: `reply(k, …)` is what its k-th call returns. */
module Io {
  import opened Machine

  /** `io::Error`. `WriteZero` exists but nothing here produces it. */
  datatype Error = WriteZero | FmtError

  datatype IoResult<T> = Ok(value: T) | Err(error: Error)

  /** A writer that, handed a non-empty buffer, writes at least one byte whenever it
      succeeds. `write_all` terminates only with such writers: one that answers `Ok(0)`
      forever keeps it looping at the same position. */
  ghost predicate WriterProgresses(reply: (nat, seq<byte>) -> IoResult<nat>)
  {
    forall k, rest :: |rest| > 0 && reply(k, rest).Ok? ==> reply(k, rest).value > 0
  }

  /** One call of `write_all`'s loop: the suffix handed over and the reply. */
  datatype WriteCall = WriteCall(rest: seq<byte>, reply: IoResult<nat>)

  /** The calls `write_all` makes from position `pos`, the k-th call being next. */
  function WriteCalls(buf: seq<byte>, reply: (nat, seq<byte>) -> IoResult<nat>, pos: nat, k: nat): (t: seq<WriteCall>)
    requires WriterProgresses(reply)
    decreases |buf| - pos
  {
    if pos >= |buf| then []
    else
      var r := reply(k, buf[pos..]);
      [WriteCall(buf[pos..], r)] + (if r.Err? then [] else WriteCalls(buf, reply, pos + r.value, k + 1))
  }

  /** The sum of the counts of the successful calls. */
  function Written(t: seq<WriteCall>): nat
  {
    if t == [] then 0 else (if t[0].reply.Ok? then t[0].reply.value else 0) + Written(t[1..])
  }

  /** What `write_all` returns: the error of the last call if it failed, else `Ok(())`. */
  function WriteAllResult(t: seq<WriteCall>): IoResult<()>
  {
    if t != [] && t[|t| - 1].reply.Err? then Err(t[|t| - 1].reply.error) else Ok(())
  }

  /** The loop's contract: every call but the last succeeded; call i receives the
      buffer from the sum of the earlier counts on; the result is an error exactly when
      the last call failed, and then it is that call's error; on success the counts add
      up to at least the rest of the buffer. */
  lemma WriteCallsShape(buf: seq<byte>, reply: (nat, seq<byte>) -> IoResult<nat>, pos: nat, k: nat)
    requires WriterProgresses(reply)
    ensures var t := WriteCalls(buf, reply, pos, k);
      && (forall i :: 0 <= i < |t| - 1 ==> t[i].reply.Ok?)
      && (forall i :: 0 <= i < |t| ==> pos + Written(t[..i]) <= |buf| && t[i].rest == buf[pos + Written(t[..i])..])
      && (WriteAllResult(t).Ok? ==> pos + Written(t) >= |buf|)
      && (pos < |buf| ==> |t| > 0)
  {
    EarlierCallsSucceed(buf, reply, pos, k);
    CallsGetRest(buf, reply, pos, k);
    SuccessCoversBuffer(buf, reply, pos, k);
  }

  /** The calls from `pos` on are the call at `pos` followed by the calls after it. */
  lemma CallsUnfold(buf: seq<byte>, reply: (nat, seq<byte>) -> IoResult<nat>, pos: nat, k: nat)
    requires WriterProgresses(reply) && pos < |buf| && reply(k, buf[pos..]).Ok?
    ensures reply(k, buf[pos..]).value > 0
    ensures WriteCalls(buf, reply, pos, k)
      == [WriteCall(buf[pos..], reply(k, buf[pos..]))] + WriteCalls(buf, reply, pos + reply(k, buf[pos..]).value, k + 1)
  {
  }

  /** Only the last call can fail. */
  lemma {:induction false} EarlierCallsSucceed(buf: seq<byte>, reply: (nat, seq<byte>) -> IoResult<nat>, pos: nat, k: nat)
    requires WriterProgresses(reply)
    ensures var t := WriteCalls(buf, reply, pos, k);
      forall i :: 0 <= i < |t| - 1 ==> t[i].reply.Ok?
    decreases |buf| - pos
  {
    if pos < |buf| && reply(k, buf[pos..]).Ok? {
      var r := reply(k, buf[pos..]);
      CallsUnfold(buf, reply, pos, k);
      EarlierCallsSucceed(buf, reply, pos + r.value, k + 1);
      var t := WriteCalls(buf, reply, pos, k);
      var u := WriteCalls(buf, reply, pos + r.value, k + 1);
      forall i | 0 <= i < |t| - 1
        ensures t[i].reply.Ok?
      {
        if i > 0 {
          assert t[i] == u[i - 1];
        }
      }
    }
  }

  /** Call i of `t` receives the buffer from `pos` plus the earlier counts on. */
  ghost predicate RestsFrom(buf: seq<byte>, pos: nat, t: seq<WriteCall>)
  {
    forall i :: 0 <= i < |t| ==> pos + Written(t[..i]) <= |buf| && t[i].rest == buf[pos + Written(t[..i])..]
  }

  /** A successful call handed the buffer from `pos` on, followed by calls that start
      where its count leaves off. */
  lemma RestsCons(buf: seq<byte>, pos: nat, v: nat, c: WriteCall, u: seq<WriteCall>)
    requires pos <= |buf| && c.rest == buf[pos..] && c.reply == Ok(v)
    requires RestsFrom(buf, pos + v, u)
    ensures RestsFrom(buf, pos, [c] + u)
  {
    var t := [c] + u;
    forall i | 0 <= i < |t|
      ensures pos + Written(t[..i]) <= |buf| && t[i].rest == buf[pos + Written(t[..i])..]
    {
      if i == 0 {
        assert t[..0] == [];
      } else {
        assert t[..i][0] == c && t[..i][1..] == u[..i - 1];
        assert Written(t[..i]) == v + Written(u[..i - 1]);
        assert t[i] == u[i - 1];
      }
    }
  }

  /** Call i receives the buffer from the sum of the earlier counts on. */
  lemma {:induction false} CallsGetRest(buf: seq<byte>, reply: (nat, seq<byte>) -> IoResult<nat>, pos: nat, k: nat)
    requires WriterProgresses(reply)
    ensures var t := WriteCalls(buf, reply, pos, k);
      && (pos < |buf| ==> |t| > 0)
      && RestsFrom(buf, pos, t)
    decreases |buf| - pos
  {
    if pos < |buf| {
      var r := reply(k, buf[pos..]);
      var c := WriteCall(buf[pos..], r);
      if r.Ok? {
        CallsUnfold(buf, reply, pos, k);
        CallsGetRest(buf, reply, pos + r.value, k + 1);
        RestsCons(buf, pos, r.value, c, WriteCalls(buf, reply, pos + r.value, k + 1));
      } else {
        CallsStopAtError(buf, reply, pos, k);
        RestsSingle(buf, pos, c);
      }
    }
  }

  /** A single call handed the buffer from `pos` on starts where it should. */
  lemma RestsSingle(buf: seq<byte>, pos: nat, c: WriteCall)
    requires pos <= |buf| && c.rest == buf[pos..]
    ensures RestsFrom(buf, pos, [c])
  {
    assert [c][..0] == [];
  }

  /** When no call failed, the counts add up to at least the rest of the buffer. */
  lemma {:induction false} SuccessCoversBuffer(buf: seq<byte>, reply: (nat, seq<byte>) -> IoResult<nat>, pos: nat, k: nat)
    requires WriterProgresses(reply)
    ensures var t := WriteCalls(buf, reply, pos, k);
      WriteAllResult(t).Ok? ==> pos + Written(t) >= |buf|
    decreases |buf| - pos
  {
    if pos < |buf| {
      var r := reply(k, buf[pos..]);
      if r.Ok? {
        CallsUnfold(buf, reply, pos, k);
        SuccessCoversBuffer(buf, reply, pos + r.value, k + 1);
        CoverCons(buf, pos, r.value, WriteCall(buf[pos..], r), WriteCalls(buf, reply, pos + r.value, k + 1));
      } else {
        CallsStopAtError(buf, reply, pos, k);
        assert WriteAllResult([WriteCall(buf[pos..], r)]).Err?;
      }
    }
  }

  /** A successful call followed by calls that cover the buffer from where its count
      leaves off covers the buffer from `pos`. */
  lemma CoverCons(buf: seq<byte>, pos: nat, v: nat, c: WriteCall, u: seq<WriteCall>)
    requires c.reply == Ok(v)
    requires WriteAllResult(u).Ok? ==> pos + v + Written(u) >= |buf|
    ensures WriteAllResult([c] + u).Ok? ==> pos + Written([c] + u) >= |buf|
  {
    var t := [c] + u;
    assert t[1..] == u;
    assert Written(t) == v + Written(u);
    if u != [] {
      assert t[|t| - 1] == u[|u| - 1];
    }
  }

  /** `write_all(buf)`: returns the result the calls above lead to. */
  method WriteAll(buf: seq<byte>, reply: (nat, seq<byte>) -> IoResult<nat>) returns (r: IoResult<()>)
    requires WriterProgresses(reply)
    ensures r == WriteAllResult(WriteCalls(buf, reply, 0, 0))
  {
    var pos: nat := 0;
    var k: nat := 0;
    ghost var done: seq<WriteCall> := [];
    while pos < |buf|
      invariant WriteCalls(buf, reply, 0, 0) == done + WriteCalls(buf, reply, pos, k)
      invariant WriteAllResult(done) == Ok(())
      decreases |buf| - pos
    {
      var res := reply(k, buf[pos..]);
      ghost var call := WriteCall(buf[pos..], res);
      if res.Err? {
        CallsStopAtError(buf, reply, pos, k);
        ErrorEnds(done, call);
        return Err(res.error);
      }
      CallsUnfold(buf, reply, pos, k);
      SuccessContinues(done, call, WriteCalls(buf, reply, pos + res.value, k + 1));
      done := done + [call];
      pos := pos + res.value;
      k := k + 1;
    }
    assert done + [] == done;
    r := Ok(());
  }

  /** A failing call is the last one. */
  lemma CallsStopAtError(buf: seq<byte>, reply: (nat, seq<byte>) -> IoResult<nat>, pos: nat, k: nat)
    requires WriterProgresses(reply) && pos < |buf| && reply(k, buf[pos..]).Err?
    ensures WriteCalls(buf, reply, pos, k) == [WriteCall(buf[pos..], reply(k, buf[pos..]))]
  {
  }

  lemma ErrorEnds(done: seq<WriteCall>, call: WriteCall)
    requires call.reply.Err?
    ensures WriteAllResult(done + [call]) == Err(call.reply.error)
  {
  }

  lemma SuccessContinues(done: seq<WriteCall>, call: WriteCall, rest: seq<WriteCall>)
    requires call.reply.Ok? && WriteAllResult(done) == Ok(())
    ensures done + ([call] + rest) == (done + [call]) + rest
    ensures WriteAllResult(done + [call]) == Ok(())
  {
  }

  /** A reader that, given room for at least one byte, fills at least one and no more than
      the room whenever it succeeds. */
  ghost predicate ReaderProgresses(reply: (nat, nat) -> IoResult<seq<byte>>)
  {
    forall k, room :: room > 0 && reply(k, room).Ok? ==> 0 < |reply(k, room).value| <= room
  }

  /** The buffer after `read_exact` continues from position `pos` with the k-th call,
      and the call's result. */
  function ReadExactFrom(buf: seq<byte>, reply: (nat, nat) -> IoResult<seq<byte>>, pos: nat, k: nat): (r: (seq<byte>, IoResult<()>))
    requires ReaderProgresses(reply)
    ensures |r.0| == |buf|
    decreases |buf| - pos
  {
    if pos >= |buf| then (buf, Ok(()))
    else
      match reply(k, |buf| - pos)
      case Err(e) => (buf, Err(e))
      case Ok(data) =>
        ReadExactFrom(buf[..pos] + data + buf[pos + |data|..], reply, pos + |data|, k + 1)
  }

  /** With a reader that always succeeds, `read_exact` returns `Ok` and the buffer holds
      the bytes of the successive replies, in order; bytes before `pos` are kept. */
  lemma {:induction false} ReadExactFills(buf: seq<byte>, reply: (nat, nat) -> IoResult<seq<byte>>, pos: nat, k: nat)
    requires ReaderProgresses(reply)
    requires forall j, room :: reply(j, room).Ok?
    requires pos <= |buf|
    ensures ReadExactFrom(buf, reply, pos, k).1 == Ok(())
    ensures ReadExactFrom(buf, reply, pos, k).0[..pos] == buf[..pos]
    ensures pos < |buf| ==>
      var data := reply(k, |buf| - pos).value;
      ReadExactFrom(buf, reply, pos, k).0[pos .. pos + |data|] == data
    decreases |buf| - pos
  {
    if pos < |buf| {
      var data := reply(k, |buf| - pos).value;
      var next := buf[..pos] + data + buf[pos + |data|..];
      ReadExactFills(next, reply, pos + |data|, k + 1);
      var res := ReadExactFrom(next, reply, pos + |data|, k + 1).0;
      assert res[..pos] == res[..pos + |data|][..pos];
      assert next[..pos + |data|] == buf[..pos] + data;
    }
  }

  /** The first failing read ends `read_exact` with its error, leaving the buffer as the
      earlier reads filled it. */
  lemma ReadExactStopsAtError(buf: seq<byte>, reply: (nat, nat) -> IoResult<seq<byte>>, pos: nat, k: nat)
    requires ReaderProgresses(reply)
    requires pos < |buf| && reply(k, |buf| - pos).Err?
    ensures ReadExactFrom(buf, reply, pos, k) == (buf, Err(reply(k, |buf| - pos).error))
  {
  }

  /** A successful read fills the unread part from its start and moves on by its length. */
  lemma ReadExactStep(buf: seq<byte>, reply: (nat, nat) -> IoResult<seq<byte>>, pos: nat, k: nat)
    requires ReaderProgresses(reply) && pos < |buf| && reply(k, |buf| - pos).Ok?
    ensures var data := reply(k, |buf| - pos).value;
      && 0 < |data| <= |buf| - pos
      && ReadExactFrom(buf, reply, pos, k)
         == ReadExactFrom(buf[..pos] + data + buf[pos + |data|..], reply, pos + |data|, k + 1)
  {
  }

  /** `read_exact(buf)`: each call fills the unread part of `buf` from its start. */
  method ReadExact(buf: array<byte>, reply: (nat, nat) -> IoResult<seq<byte>>) returns (r: IoResult<()>)
    requires ReaderProgresses(reply)
    modifies buf
    ensures (buf[..], r) == ReadExactFrom(old(buf[..]), reply, 0, 0)
  {
    var pos: nat := 0;
    var k: nat := 0;
    while pos < buf.Length
      invariant ReadExactFrom(buf[..], reply, pos, k) == ReadExactFrom(old(buf[..]), reply, 0, 0)
      decreases buf.Length - pos
    {
      var res := reply(k, buf.Length - pos);
      if res.Err? {
        ReadExactStopsAtError(buf[..], reply, pos, k);
        return Err(res.error);
      }
      ReadExactStep(buf[..], reply, pos, k);
      CopyAt(buf, pos, res.value);
      pos := pos + |res.value|;
      k := k + 1;
    }
    r := Ok(());
  }

  /** Copy `data` into `buf` from index `pos` on. */
  method CopyAt(buf: array<byte>, pos: nat, data: seq<byte>)
    requires pos + |data| <= buf.Length
    modifies buf
    ensures buf[..] == old(buf[..])[..pos] + data + old(buf[..])[pos + |data|..]
  {
    var j := 0;
    while j < |data|
      invariant 0 <= j <= |data|
      invariant buf[..] == old(buf[..])[..pos] + data[..j] + old(buf[..])[pos + j..]
    {
      buf[pos + j] := data[j];
      j := j + 1;
    }
    assert data[..j] == data;
  }
}
