/** ConcatenatedStream: a read-only, forward-only stream over a queue of
    underlying sources. Each method is proved against the value-level model in
    QueueModel. */
module ConcatStream {
  import opened SourceStreams
  import opened QueueModel

  datatype SeekOrigin = Begin | Current | End

  class ConcatenatedStream {
    var streams: Option<seq<Src>>  // the queue, head first; None once Dispose(true) dropped it
    var disposed: bool
    ghost var released: seq<Src>   // the dequeued sources as they were left, oldest first

    const CanRead: bool := true
    const CanSeek: bool := false
    const CanWrite: bool := false

    /** The queue is dropped only by a Dispose that also marks the stream
        disposed. */
    ghost predicate Valid()
      reads this
    {
      streams.None? ==> disposed
    }

    /** Queues the sources in the given order. */
    constructor (streams: seq<Src>)
      ensures Valid() && this.streams == Some(streams) && !disposed && released == []
    {
      this.streams := Some(streams);
      this.disposed := false;
      this.released := [];
    }

    /** The constructor's null check: an absent sequence is an error. */
    static method Create(streams: Option<seq<Src>>) returns (r: Result<ConcatenatedStream>)
      ensures streams.None? ==> r == Err(ArgumentNull)
      ensures streams.Some? ==>
        && r.Ok? && fresh(r.value) && r.value.Valid()
        && r.value.streams == streams && !r.value.disposed && r.value.released == []
    {
      if streams.None? {
        return Err(ArgumentNull);
      }
      var c := new ConcatenatedStream(streams.value);
      r := Ok(c);
    }

    /** Reads up to `count` bytes into `buffer` at `offset`. The argument
        checks come first; a dropped queue faults; an empty queue gives 0;
        otherwise the head is read, and a short read dequeues and disposes the
        head and continues on the rest at this level's own byte count. */
    method Read(buffer: array?<byte>, offset: int, count: int) returns (r: Result<int>)
      requires Valid()
      modifies this, buffer
      ensures Valid() && disposed == old(disposed)
      ensures buffer == null ==> r == Err(ArgumentNull)
      ensures buffer != null && offset < 0 ==> r == Err(ArgumentOutOfRange)
      ensures buffer != null && 0 <= offset && count < 0 ==> r == Err(ArgumentOutOfRange)
      ensures buffer != null && 0 <= offset && 0 <= count && old(streams).None? ==> r == Err(NullReference)
      ensures buffer == null || offset < 0 || count < 0 || old(streams).None? ==>
        streams == old(streams) && released == old(released) && (buffer != null ==> unchanged(buffer))
      ensures buffer != null && 0 <= offset && 0 <= count && old(streams) == Some([]) ==>
        r == Ok(0) && streams == old(streams) && released == old(released) && buffer[..] == old(buffer[..])
      ensures buffer != null && 0 <= offset && 0 <= count && old(streams).Some? ==>
        var o := QueueModel.Read(old(streams.value), old(buffer[..]), offset, count, AsWritten);
        && r == o.result
        && buffer[..] == o.buffer
        && streams == Some(o.queue)
        && released == old(released) + o.released
    {
      if buffer == null {
        return Err(ArgumentNull);
      }
      if offset < 0 {
        return Err(ArgumentOutOfRange);
      }
      if count < 0 {
        return Err(ArgumentOutOfRange);
      }
      if streams.None? {
        return Err(NullReference);
      }
      r := ReadQueued(buffer, offset, count, streams.value, buffer[..]);
    }

    /** Read past its argument checks, on a queue `q` and buffer contents `b`:
        an empty queue gives 0; otherwise read from the head, and on a short
        read go on with DequeueAndContinue. */
    method ReadQueued(buffer: array<byte>, offset: nat, count: nat, ghost q: seq<Src>, ghost b: seq<byte>)
        returns (r: Result<int>)
      requires Valid() && streams == Some(q) && buffer[..] == b
      modifies this, buffer
      ensures Valid() && disposed == old(disposed)
      ensures var o := QueueModel.Read(q, b, offset, count, AsWritten);
        && r == o.result
        && buffer[..] == o.buffer
        && streams == Some(o.queue)
        && released == old(released) + o.released
      decreases |q|, 1
    {
      var queue := streams.value;
      if |queue| == 0 {
        return Ok(0);
      }
      var read, head := ReadSource(queue[0], buffer, offset, count);
      if read.Err? {
        return Err(read.error);
      }
      if read.value < count {
        r := DequeueAndContinue(buffer, offset, count, q, b);
      } else {
        FullHeadRead(q, b, offset, count, AsWritten);
        streams := Some([head] + queue[1..]);
        r := read;
      }
    }

    /** The rest of a short read, once the head delivered all it had into
        the buffer: dequeue and dispose the head; if its Dispose raises, the
        fault ends the call, otherwise ReadRest continues. */
    method DequeueAndContinue(buffer: array<byte>, offset: nat, count: nat, ghost q: seq<Src>, ghost b: seq<byte>)
        returns (r: Result<int>)
      requires Valid() && streams == Some(q) && q != [] && !q[0].disposed
      requires |q[0].data| < count && offset + count <= |b| == buffer.Length
      requires buffer[..] == Splice(b, offset, q[0].data)
      modifies this, buffer
      ensures Valid() && disposed == old(disposed)
      ensures var o := QueueModel.Read(q, b, offset, count, AsWritten);
        && r == o.result
        && buffer[..] == o.buffer
        && streams == Some(o.queue)
        && released == old(released) + o.released
      decreases |q|, 0
    {
      var head := streams.value[0].(data := []);
      var bytesRead := |streams.value[0].data|;
      streams := Some(streams.value[1..]);
      released := released + [Released(head)];
      if head.disposeThrows {
        assert QueueModel.Read(q, b, offset, count, AsWritten)
            == ReadOutcome(Err(DisposeFault), buffer[..], q[1..], [Released(head)]) by {
          ShortReadFaults(q, b, offset, count, AsWritten);
        }
        return Err(DisposeFault);
      }
      r := ReadRest(buffer, offset, count, bytesRead, q, b, old(released));
    }

    /** After the exhausted head `q[0]` was dequeued and disposed: read the
        shortfall from the rest of the queue at this level's own byte count
        (the continuation skips the argument checks, which it always passes)
        and add the counts. */
    method ReadRest(buffer: array<byte>, offset: nat, count: nat, bytesRead: nat, ghost q: seq<Src>,
                    ghost b: seq<byte>, ghost log: seq<Src>)
        returns (r: Result<int>)
      requires Valid() && q != [] && !q[0].disposed && !q[0].disposeThrows
      requires bytesRead == |q[0].data| < count && offset + count <= |b| == buffer.Length
      requires buffer[..] == Splice(b, offset, q[0].data)
      requires streams == Some(q[1..]) && released == log + [Released(q[0].(data := []))]
      modifies this, buffer
      ensures Valid() && disposed == old(disposed)
      ensures var o := QueueModel.Read(q, b, offset, count, AsWritten);
        && r == o.result
        && buffer[..] == o.buffer
        && streams == Some(o.queue)
        && released == log + o.released
      decreases |q| - 1, 2
    {
      ghost var rest := QueueModel.Read(q[1..], buffer[..], bytesRead, count - bytesRead, AsWritten);
      assert QueueModel.Read(q, b, offset, count, AsWritten) == Continued(q[0], rest) by {
        ShortReadContinues(q, b, offset, count, AsWritten);
      }
      var more := ReadQueued(buffer, bytesRead, count - bytesRead, q[1..], buffer[..]);
      if more.Err? {
        return more;
      }
      return Ok(more.value + bytesRead);
    }

    /** Dispose(true) drains the queue, then drops it and marks the stream
        disposed; a source whose Dispose raises ends the drain, the exception
        is swallowed and the stream stays undisposed. Dispose(false) only marks
        the stream disposed. Once disposed, Dispose does nothing. */
    method Dispose(disposing: bool)
      requires Valid()
      modifies this
      ensures Valid()
      ensures old(disposed) ==> unchanged(this)
      ensures !old(disposed) && !disposing ==>
        disposed && streams == old(streams) && released == old(released)
      ensures !old(disposed) && disposing ==>
        var d := Drain(old(streams.value));
        && released == old(released) + d.released
        && (d.completed ==> streams.None? && disposed)
        && (!d.completed ==> streams == Some(d.queue) && !disposed)
    {
      if disposed {
        return;
      }
      if disposing {
        ghost var q := streams.value;
        ghost var done: seq<Src> := [];
        while streams.Some? && |streams.value| > 0
          invariant streams.Some? && |done| <= |q| && streams.value == q[|done|..]
          invariant released == old(released) + done && !disposed
          invariant forall j :: 0 <= j < |done| ==> done[j] == Released(q[j]) && !q[j].disposeThrows
          decreases |streams.value|
        {
          var head := streams.value[0];
          assert head == q[|done|] && streams.value[1..] == q[|done| + 1..];
          streams := Some(streams.value[1..]);
          released := released + [Released(head)];
          if head.disposeThrows {
            done := done + [Released(head)];
            DrainStopsAt(q, |done| - 1);
            assert done == Drain(q).released;
            return;
          }
          done := done + [Released(head)];
        }
        DrainCompletes(q);
        assert done == Drain(q).released;
        if streams.Some? {
          streams := None;
        }
      }
      disposed := true;
    }

    // The members below are not supported and always fail.

    function Length(): (r: Result<int>)
      ensures r.Err? && r.error == NotImplemented
    {
      Err(NotImplemented)
    }

    function Position(): (r: Result<int>)
      ensures r.Err? && r.error == NotImplemented
    {
      Err(NotImplemented)
    }

    function SetPosition(value: int): (r: Result<()>)
      ensures r.Err? && r.error == NotImplemented
    {
      Err(NotImplemented)
    }

    function Write(buffer: array?<byte>, offset: int, count: int): (r: Result<()>)
      ensures r.Err? && r.error == NotImplemented
    {
      Err(NotImplemented)
    }

    function Flush(): (r: Result<()>)
      ensures r.Err? && r.error == NotImplemented
    {
      Err(NotImplemented)
    }

    function Seek(offset: int, origin: SeekOrigin): (r: Result<int>)
      ensures r.Err? && r.error == NotImplemented
    {
      Err(NotImplemented)
    }

    function SetLength(value: int): (r: Result<()>)
      ensures r.Err? && r.error == NotImplemented
    {
      Err(NotImplemented)
    }
  }
}
