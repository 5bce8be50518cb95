/** The queue protocol of ConcatenatedStream on values: what one Read call does
    to the caller's buffer and to the queue of sources, and where Dispose stops
    draining. ConcatStream.ConcatenatedStream is proved against these
    functions; the lemmas here state what they promise. */
module QueueModel {
  import opened SourceStreams

  /** Where a continuation read writes: `AsWritten` at this level's own byte
      count (the original code), `Intended` right after the bytes already
      written in this call. */
  datatype Continuation = AsWritten | Intended

  /** The effect of one Read call: its result, the buffer afterwards, the
      sources still queued, and the states of the sources it dequeued, in the
      order it dequeued them. */
  datatype ReadOutcome = ReadOutcome(result: Result<int>, buffer: seq<byte>, queue: seq<Src>, released: seq<Src>)

  /** The unread bytes of all sources, in queue order. */
  function Bytes(q: seq<Src>): (r: seq<byte>)
  {
    if q == [] then [] else q[0].data + Bytes(q[1..])
  }

  /** Memory-like sources: none disposed, none raising on Dispose. */
  predicate Plain(q: seq<Src>)
  {
    forall i :: 0 <= i < |q| ==> !q[i].disposed && !q[i].disposeThrows
  }

  /** `t` is `s` after some of its leading bytes were read. */
  predicate Consumed(s: Src, t: Src)
  {
    && t.disposed == s.disposed && t.disposeThrows == s.disposeThrows
    && |t.data| <= |s.data| && t.data == s.data[|s.data| - |t.data|..]
  }

  function NextOffset(mode: Continuation, offset: nat, n: nat): (r: nat)
  {
    match mode
    case AsWritten => n
    case Intended => offset + n
  }

  /** One Read of `count` bytes at `offset`: an empty queue gives 0; otherwise
      the head is read, and a short read dequeues and disposes the head and
      continues with the shortfall on the rest of the queue. */
  function Read(q: seq<Src>, buf: seq<byte>, offset: nat, count: nat, mode: Continuation): (o: ReadOutcome)
    ensures |o.buffer| == |buf|
    ensures o.result.Ok? ==> 0 <= o.result.value <= count
    ensures o.result.Ok? && o.result.value < count ==> o.queue == []
    ensures o.result.Err? ==> o.result.error in {InvalidRange, ObjectDisposed, DisposeFault}
    ensures |o.released| + |o.queue| == |q|
    decreases |q|
  {
    if q == [] then ReadOutcome(Ok(0), buf, [], [])
    else if |buf| - offset < count then ReadOutcome(Err(InvalidRange), buf, q, [])
    else if q[0].disposed then ReadOutcome(Err(ObjectDisposed), buf, q, [])
    else if count <= |q[0].data| then
      // the head delivers all `count` bytes and stays queued
      ReadOutcome(Ok(count), Splice(buf, offset, q[0].data[..count]),
                  [q[0].(data := q[0].data[count..])] + q[1..], [])
    else
      // a short read: the head delivers all it has, is dequeued and disposed
      var n := |q[0].data|;
      var written := Splice(buf, offset, q[0].data);
      if q[0].disposeThrows then ReadOutcome(Err(DisposeFault), written, q[1..], [q[0].(data := [])])
      else Continued(q[0], Read(q[1..], written, NextOffset(mode, offset, n), count - n, mode))
  }

  /** The outcome of a call whose exhausted head `head` was disposed and whose
      continuation produced `rest`: the byte counts add up and `head` heads
      the list of dequeued sources. */
  function Continued(head: Src, rest: ReadOutcome): (o: ReadOutcome)
  {
    ReadOutcome(if rest.result.Ok? then Ok(|head.data| + rest.result.value) else rest.result,
                rest.buffer, rest.queue, [Released(head.(data := []))] + rest.released)
  }

  /** A short read from the head disposes it and continues on the rest of the
      queue at this level's own byte count (as written) or right after the
      bytes written so far (intended), adding the two counts. */
  lemma ShortReadContinues(q: seq<Src>, buf: seq<byte>, offset: nat, count: nat, mode: Continuation)
    requires q != [] && |buf| - offset >= count && !q[0].disposed && !q[0].disposeThrows
    requires |q[0].data| < count
    ensures var n := |q[0].data|;
      Read(q, buf, offset, count, mode)
        == Continued(q[0], Read(q[1..], Splice(buf, offset, q[0].data), NextOffset(mode, offset, n), count - n, mode))
  {
  }

  /** A short read whose head raises on Dispose fails with that fault, after
      the head's bytes were copied and the head was dequeued. */
  lemma ShortReadFaults(q: seq<Src>, buf: seq<byte>, offset: nat, count: nat, mode: Continuation)
    requires q != [] && |buf| - offset >= count && !q[0].disposed && q[0].disposeThrows
    requires |q[0].data| < count
    ensures Read(q, buf, offset, count, mode)
      == ReadOutcome(Err(DisposeFault), Splice(buf, offset, q[0].data), q[1..], [Released(q[0].(data := []))])
  {
  }

  /** A Read only shrinks the queue from the front: each dequeued source was
      the head at the time, is exhausted and was disposed (unless its Dispose
      raised); the new head, if any, is the next source with some of its
      leading bytes consumed, and the sources behind it are untouched. */
  lemma {:induction false} ReadShrinksFromFront(q: seq<Src>, buf: seq<byte>, offset: nat, count: nat, mode: Continuation)
    ensures ShrunkFromFront(q, Read(q, buf, offset, count, mode))
    decreases |q|, 1
  {
    if q == [] || |buf| - offset < count || q[0].disposed {
      assert q != [] ==> q[0].data[|q[0].data| - |q[0].data|..] == q[0].data;
    } else if count <= |q[0].data| {
      FullHeadRead(q, buf, offset, count, mode);
      var d := q[0].data;
      assert d[count..] == d[|d| - |d[count..]|..];
    } else if q[0].disposeThrows {
      assert q[1..] != [] ==> q[1].data[|q[1].data| - |q[1].data|..] == q[1].data;
    } else {
      ShortReadShrinksFromFront(q, buf, offset, count, mode);
    }
  }

  /** The two halves of the promise of ReadShrinksFromFront. */
  predicate ShrunkFromFront(q: seq<Src>, o: ReadOutcome)
  {
    && |o.released| + |o.queue| == |q|
    && (forall i :: 0 <= i < |o.released| ==> o.released[i] == Released(q[i].(data := [])))
    && (o.queue != [] ==> o.queue[1..] == q[|o.released| + 1..] && Consumed(q[|o.released|], o.queue[0]))
  }

  lemma {:induction false} ShortReadShrinksFromFront(q: seq<Src>, buf: seq<byte>, offset: nat, count: nat, mode: Continuation)
    requires q != [] && |buf| - offset >= count && !q[0].disposed && !q[0].disposeThrows
    requires |q[0].data| < count
    ensures ShrunkFromFront(q, Read(q, buf, offset, count, mode))
    decreases |q|, 0
  {
    var n := |q[0].data|;
    var written := Splice(buf, offset, q[0].data);
    var next := NextOffset(mode, offset, n);
    var rest := Read(q[1..], written, next, count - n, mode);
    ReadShrinksFromFront(q[1..], written, next, count - n, mode);
    ContinuedShrinks(q, rest);
    var o := Read(q, buf, offset, count, mode);
    assert o == Continued(q[0], rest) by {
      ShortReadContinues(q, buf, offset, count, mode);
    }
  }

  lemma ContinuedShrinks(q: seq<Src>, rest: ReadOutcome)
    requires q != [] && ShrunkFromFront(q[1..], rest)
    ensures ShrunkFromFront(q, Continued(q[0], rest))
  {
    var o := Continued(q[0], rest);
    forall i | 1 <= i < |o.released|
      ensures o.released[i] == Released(q[i].(data := []))
    {
      assert o.released[i] == rest.released[i - 1] && q[i] == q[1..][i - 1];
    }
    assert o.queue != [] ==> q[|o.released| + 1..] == q[1..][|rest.released| + 1..];
  }

  /** On memory-like sources a Read returns min(count, total unread bytes) and
      consumes exactly that many bytes from the front of the concatenation. */
  lemma {:induction false} PlainReadConsumesPrefix(q: seq<Src>, buf: seq<byte>, offset: nat, count: nat, mode: Continuation)
    requires Plain(q) && offset + count <= |buf|
    ensures var o := Read(q, buf, offset, count, mode);
      var m := Min(count, |Bytes(q)|);
      && o.result == Ok(m)
      && Bytes(o.queue) == Bytes(q)[m..]
    decreases |q|, 1
  {
    if q != [] {
      if |q[0].data| < count {
        PlainShortRead(q, buf, offset, count, mode);
      } else {
        FullHeadRead(q, buf, offset, count, mode);
        var d := q[0].data;
        var head := q[0].(data := d[count..]);
        assert Bytes(q) == d + Bytes(q[1..]);
        assert ([head] + q[1..])[1..] == q[1..];
        assert Bytes([head] + q[1..]) == d[count..] + Bytes(q[1..]);
      }
    }
  }

  lemma {:induction false} PlainShortRead(q: seq<Src>, buf: seq<byte>, offset: nat, count: nat, mode: Continuation)
    requires Plain(q) && offset + count <= |buf|
    requires q != [] && |q[0].data| < count
    ensures var o := Read(q, buf, offset, count, mode);
      var m := Min(count, |Bytes(q)|);
      && o.result == Ok(m)
      && Bytes(o.queue) == Bytes(q)[m..]
    decreases |q|, 0
  {
    var d := q[0].data;
    var n := |d|;
    var written := Splice(buf, offset, d);
    var next := NextOffset(mode, offset, n);
    var rest := Read(q[1..], written, next, count - n, mode);
    PlainReadConsumesPrefix(q[1..], written, next, count - n, mode);
    assert Bytes(q) == d + Bytes(q[1..]);
    ContinuedConsumes(q[0], rest, Bytes(q[1..]), count);
    assert Read(q, buf, offset, count, mode) == Continued(q[0], rest) by {
      ShortReadContinues(q, buf, offset, count, mode);
    }
  }

  lemma ContinuedConsumes(head: Src, rest: ReadOutcome, tail: seq<byte>, count: nat)
    requires |head.data| < count
    requires var m := Min(count - |head.data|, |tail|);
      rest.result == Ok(m) && Bytes(rest.queue) == tail[m..]
    ensures var o, m := Continued(head, rest), Min(count, |head.data + tail|);
      o.result == Ok(m) && Bytes(o.queue) == (head.data + tail)[m..]
  {
    DropPastPrefix(head.data, tail, Min(count - |head.data|, |tail|));
  }

  lemma DropPastPrefix(a: seq<byte>, b: seq<byte>, k: nat)
    requires k <= |b|
    ensures (a + b)[|a| + k..] == b[k..]
  {
  }

  /** The continuation offset affects only where bytes land: the result, the
      remaining queue and the dequeued sources do not depend on the buffer,
      the offset or the mode, as long as the range check decides alike. */
  lemma {:induction false} OutcomeIgnoresPlacement(q: seq<Src>, b1: seq<byte>, o1: nat, b2: seq<byte>, o2: nat,
                                                   count: nat, m1: Continuation, m2: Continuation)
    requires (|b1| - o1 < count) == (|b2| - o2 < count)
    ensures SameOutcome(Read(q, b1, o1, count, m1), Read(q, b2, o2, count, m2))
    decreases |q|, 1
  {
    if q != [] && |b1| - o1 >= count && !q[0].disposed && |q[0].data| < count && !q[0].disposeThrows {
      ShortReadIgnoresPlacement(q, b1, o1, b2, o2, count, m1, m2);
    }
  }

  /** Two outcomes that agree on everything but the buffer. */
  predicate SameOutcome(r1: ReadOutcome, r2: ReadOutcome)
  {
    r1.result == r2.result && r1.queue == r2.queue && r1.released == r2.released
  }

  lemma {:induction false} ShortReadIgnoresPlacement(q: seq<Src>, b1: seq<byte>, o1: nat, b2: seq<byte>, o2: nat,
                                                     count: nat, m1: Continuation, m2: Continuation)
    requires q != [] && |b1| - o1 >= count && |b2| - o2 >= count && !q[0].disposed && !q[0].disposeThrows
    requires |q[0].data| < count
    ensures SameOutcome(Read(q, b1, o1, count, m1), Read(q, b2, o2, count, m2))
    decreases |q|, 0
  {
    var n := |q[0].data|;
    var w1, w2 := Splice(b1, o1, q[0].data), Splice(b2, o2, q[0].data);
    var n1, n2 := NextOffset(m1, o1, n), NextOffset(m2, o2, n);
    var r1, r2 := Read(q[1..], w1, n1, count - n, m1), Read(q[1..], w2, n2, count - n, m2);
    OutcomeIgnoresPlacement(q[1..], w1, n1, w2, n2, count - n, m1, m2);
    var a1, a2 := Read(q, b1, o1, count, m1), Read(q, b2, o2, count, m2);
    assert a1 == Continued(q[0], r1) by {
      ShortReadContinues(q, b1, o1, count, m1);
    }
    assert a2 == Continued(q[0], r2) by {
      ShortReadContinues(q, b2, o2, count, m2);
    }
    ContinuedAlike(q[0], r1, r2, a1, a2);
  }

  lemma ContinuedAlike(head: Src, r1: ReadOutcome, r2: ReadOutcome, a1: ReadOutcome, a2: ReadOutcome)
    requires SameOutcome(r1, r2) && a1 == Continued(head, r1) && a2 == Continued(head, r2)
    ensures SameOutcome(a1, a2)
  {
  }

  /** If the head alone delivers all `count` bytes, nothing is dequeued and the
      result is `count`. */
  lemma FullHeadRead(q: seq<Src>, buf: seq<byte>, offset: nat, count: nat, mode: Continuation)
    requires q != [] && offset + count <= |buf| && !q[0].disposed && count <= |q[0].data|
    ensures var o := Read(q, buf, offset, count, mode);
      && o.result == Ok(count)
      && o.released == []
      && o.queue == [q[0].(data := q[0].data[count..])] + q[1..]
      && o.buffer == Splice(buf, offset, q[0].data[..count])
  {
  }

  /** A read of zero bytes from a non-empty queue returns 0 and changes
      nothing: it never dequeues. */
  lemma ZeroCountKeepsQueue(q: seq<Src>, buf: seq<byte>, offset: nat, mode: Continuation)
    requires q != [] && offset <= |buf| && !q[0].disposed
    ensures Read(q, buf, offset, 0, mode) == ReadOutcome(Ok(0), buf, q, [])
  {
    FullHeadRead(q, buf, offset, 0, mode);
    assert q[0].(data := q[0].data[0..]) == q[0];
    assert [q[0]] + q[1..] == q;
    assert Splice(buf, offset, []) == buf;
  }

  /** With the intended continuation offset, the buffer receives the next
      min(count, total) bytes of the concatenation at `offset`. */
  lemma {:induction false} IntendedReadIsConcatenation(q: seq<Src>, buf: seq<byte>, offset: nat, count: nat)
    requires Plain(q) && offset + count <= |buf|
    ensures var m := Min(count, |Bytes(q)|);
      Read(q, buf, offset, count, Intended).buffer == Splice(buf, offset, Bytes(q)[..m])
    decreases |q|, 1
  {
    if q != [] {
      if |q[0].data| < count {
        IntendedShortRead(q, buf, offset, count);
      } else {
        FullHeadRead(q, buf, offset, count, Intended);
        assert Bytes(q) == q[0].data + Bytes(q[1..]);
        assert q[0].data[..count] == Bytes(q)[..count];
      }
    }
  }

  lemma {:induction false} IntendedShortRead(q: seq<Src>, buf: seq<byte>, offset: nat, count: nat)
    requires Plain(q) && offset + count <= |buf|
    requires q != [] && |q[0].data| < count
    ensures var m := Min(count, |Bytes(q)|);
      Read(q, buf, offset, count, Intended).buffer == Splice(buf, offset, Bytes(q)[..m])
    decreases |q|, 0
  {
    var d := q[0].data;
    var n := |d|;
    var written := Splice(buf, offset, d);
    var rest := Read(q[1..], written, offset + n, count - n, Intended);
    IntendedReadIsConcatenation(q[1..], written, offset + n, count - n);
    assert Bytes(q) == d + Bytes(q[1..]);
    ContinuedPlacement(buf, offset, d, Bytes(q[1..]), count, rest.buffer);
    assert Read(q, buf, offset, count, Intended).buffer == rest.buffer by {
      ShortReadContinues(q, buf, offset, count, Intended);
    }
  }

  /** Copying the head's `d` and then the continuation's share of `tail` right
      after it copies the matching prefix of `d + tail`. */
  lemma ContinuedPlacement(buf: seq<byte>, offset: nat, d: seq<byte>, tail: seq<byte>, count: nat, placed: seq<byte>)
    requires |d| < count && offset + count <= |buf|
    requires placed == Splice(Splice(buf, offset, d), offset + |d|, tail[..Min(count - |d|, |tail|)])
    ensures placed == Splice(buf, offset, (d + tail)[..Min(count, |d + tail|)])
  {
    var m' := Min(count - |d|, |tail|);
    SpliceTwice(buf, offset, d, tail[..m']);
    TakePastPrefix(d, tail, m');
  }

  lemma TakePastPrefix(a: seq<byte>, b: seq<byte>, k: nat)
    requires k <= |b|
    ensures (a + b)[..|a| + k] == a + b[..k]
  {
  }

  /** With offset 0 the code as written places the bytes correctly as long as
      the request is served by the first two sources (or there are at most
      two): in that case its continuation offset equals the intended one. */
  lemma ContiguousWithinTwoSources(q: seq<Src>, buf: seq<byte>, count: nat)
    requires Plain(q) && count <= |buf|
    requires |q| <= 2 || count <= |q[0].data| + |q[1].data|
    ensures var m := Min(count, |Bytes(q)|);
      Read(q, buf, 0, count, AsWritten).buffer == Splice(buf, 0, Bytes(q)[..m])
  {
    AsWrittenIsIntendedWithinTwoSources(q, buf, count);
    IntendedReadIsConcatenation(q, buf, 0, count);
  }

  lemma AsWrittenIsIntendedWithinTwoSources(q: seq<Src>, buf: seq<byte>, count: nat)
    requires Plain(q) && count <= |buf|
    requires |q| <= 2 || count <= |q[0].data| + |q[1].data|
    ensures Read(q, buf, 0, count, AsWritten) == Read(q, buf, 0, count, Intended)
  {
    if q != [] && |q[0].data| < count {
      var n := |q[0].data|;
      var written := Splice(buf, 0, q[0].data);
      ShortReadContinues(q, buf, 0, count, AsWritten);
      ShortReadContinues(q, buf, 0, count, Intended);
      var t := q[1..];
      // both modes continue at offset n; from here on they can differ only
      // after a second short read, which leaves nothing to read
      if t != [] && |t[0].data| < count - n {
        assert t[1..] == [];
        ShortReadContinues(t, written, n, count - n, AsWritten);
        ShortReadContinues(t, written, n, count - n, Intended);
      }
    }
  }

  /** Sources "AB", "" and "CDE" read with offset 0 and count 10: the call
      returns 5, but "CDE" is written at index 0 over "AB", because the third
      read is placed at the second read's byte count, 0. */
  lemma OverwriteExample()
    ensures var q := [Src([65, 66], false, false), Src([], false, false), Src([67, 68, 69], false, false)];
      var o := Read(q, [0, 0, 0, 0, 0, 0, 0, 0, 0, 0], 0, 10, AsWritten);
      && Bytes(q) == [65, 66, 67, 68, 69]
      && o.result == Ok(5)
      && o.buffer == [67, 68, 69, 0, 0, 0, 0, 0, 0, 0]
      && o.buffer[..5] != Bytes(q)
  {
    var q := [Src([65, 66], false, false), Src([], false, false), Src([67, 68, 69], false, false)];
    var b0: seq<byte> := [0, 0, 0, 0, 0, 0, 0, 0, 0, 0];
    var b1 := Splice(b0, 0, q[0].data);
    assert b1 == [65, 66, 0, 0, 0, 0, 0, 0, 0, 0];
    // first level: "AB" at offset 0, continuing at its byte count 2
    ShortReadContinues(q, b0, 0, 10, AsWritten);
    OverwriteExampleTail(q[1..], b1);
    ExampleBytes(q);
    assert Read(q, b0, 0, 10, AsWritten).buffer[..5][0] != Bytes(q)[0];
  }

  lemma OverwriteExampleTail(q1: seq<Src>, b1: seq<byte>)
    requires q1 == [Src([], false, false), Src([67, 68, 69], false, false)]
    requires b1 == [65, 66, 0, 0, 0, 0, 0, 0, 0, 0]
    ensures var r1 := Read(q1, b1, 2, 8, AsWritten);
      r1.result == Ok(3) && r1.buffer == [67, 68, 69, 0, 0, 0, 0, 0, 0, 0]
  {
    var q2 := q1[1..];
    assert q2[1..] == [];
    assert Splice(b1, 2, q1[0].data) == b1;
    var b3 := Splice(b1, 0, q2[0].data);
    assert b3 == [67, 68, 69, 0, 0, 0, 0, 0, 0, 0];
    // third level: "CDE" at the second level's byte count 0
    ShortReadContinues(q2, b1, 0, 8, AsWritten);
    assert Read(q2, b1, 0, 8, AsWritten) == Continued(q2[0], ReadOutcome(Ok(0), b3, [], []));
    // second level: "" at offset 2
    ShortReadContinues(q1, b1, 2, 8, AsWritten);
  }

  lemma ExampleBytes(q: seq<Src>)
    requires q == [Src([65, 66], false, false), Src([], false, false), Src([67, 68, 69], false, false)]
    ensures Bytes(q) == [65, 66, 67, 68, 69]
  {
    assert Bytes(q[2..]) == [67, 68, 69];
    assert Bytes(q[1..]) == [67, 68, 69];
  }

  /** Sources "AB" and "CD" read with offset 3 and count 4 into seven bytes:
      the call returns 4, but "CD" lands at index 2, before the caller's
      offset, and overwrites the "A" at index 3. */
  lemma OffsetExample()
    ensures var q := [Src([65, 66], false, false), Src([67, 68], false, false)];
      var o := Read(q, [0, 0, 0, 0, 0, 0, 0], 3, 4, AsWritten);
      && o.result == Ok(4)
      && o.buffer == [0, 0, 67, 68, 66, 0, 0]
      && Read(q, [0, 0, 0, 0, 0, 0, 0], 3, 4, Intended).buffer == [0, 0, 0, 65, 66, 67, 68]
  {
    var q := [Src([65, 66], false, false), Src([67, 68], false, false)];
    var b0: seq<byte> := [0, 0, 0, 0, 0, 0, 0];
    var b1 := Splice(b0, 3, [65, 66]);
    assert b1 == [0, 0, 0, 65, 66, 0, 0];
    ShortReadContinues(q, b0, 3, 4, AsWritten);
    ShortReadContinues(q, b0, 3, 4, Intended);
    FullHeadRead(q[1..], b1, 2, 2, AsWritten);
    FullHeadRead(q[1..], b1, 5, 2, Intended);
    assert q[1..][0].data[..2] == [67, 68];
    assert Splice(b1, 2, [67, 68]) == [0, 0, 67, 68, 66, 0, 0];
    assert Splice(b1, 5, [67, 68]) == [0, 0, 0, 65, 66, 67, 68];
  }

  /** What Dispose(true) does to the queue: the sources dequeued (and
      disposed) in order, what is left queued, and whether the drain ran to
      the end. */
  datatype DrainOutcome = DrainOutcome(completed: bool, queue: seq<Src>, released: seq<Src>)

  /** Dequeues and disposes the sources front to back; a source whose Dispose
      raises ends the drain right after it was dequeued. */
  function Drain(q: seq<Src>): (o: DrainOutcome)
    ensures |o.released| + |o.queue| == |q|
    ensures o.queue == q[|o.released|..]
    ensures forall i :: 0 <= i < |o.released| ==> o.released[i] == Released(q[i])
    decreases |q|
  {
    if q == [] then DrainOutcome(true, [], [])
    else if q[0].disposeThrows then DrainOutcome(false, q[1..], [Released(q[0])])
    else
      var rest := Drain(q[1..]);
      DrainOutcome(rest.completed, rest.queue, [Released(q[0])] + rest.released)
  }

  /** A drain runs to the end exactly when no source's Dispose raises. */
  lemma {:induction false} DrainCompletedIff(q: seq<Src>)
    ensures Drain(q).completed <==> forall i :: 0 <= i < |q| ==> !q[i].disposeThrows
    decreases |q|
  {
    if q != [] && !q[0].disposeThrows {
      DrainCompletedIff(q[1..]);
      assert forall i :: 1 <= i < |q| ==> q[i] == q[1..][i - 1];
    }
  }

  /** A drain whose first raising source is at index `i` dequeues exactly the
      sources up to and including it and stops. */
  lemma {:induction false} DrainStopsAt(q: seq<Src>, i: nat)
    requires i < |q| && q[i].disposeThrows
    requires forall j :: 0 <= j < i ==> !q[j].disposeThrows
    ensures var o := Drain(q);
      !o.completed && |o.released| == i + 1 && o.queue == q[i + 1..]
    decreases i
  {
    if i > 0 {
      DrainStopsAt(q[1..], i - 1);
    }
  }

  /** A drain over sources none of which raises disposes all of them. */
  lemma {:induction false} DrainCompletes(q: seq<Src>)
    requires forall j :: 0 <= j < |q| ==> !q[j].disposeThrows
    ensures var o := Drain(q);
      o.completed && |o.released| == |q| && o.queue == []
    decreases |q|
  {
    if q != [] {
      DrainCompletes(q[1..]);
    }
  }
}
