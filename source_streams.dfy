/** The underlying byte sources that a ConcatenatedStream owns, modelled on a
    memory stream: the bytes not yet read, a disposed flag, and whether the
    source's Dispose raises. Also the error and result datatypes shared by the
    other modules. */
module SourceStreams {

  newtype byte = x: int | 0 <= x < 256

  /** The exceptions of ConcatenatedStream and of its sources, one variant per kind. */
  datatype Error =
    | ArgumentNull        // a required reference argument was null
    | ArgumentOutOfRange  // a negative offset or count
    | InvalidRange        // offset and count do not fit in the buffer (checked by the source)
    | ObjectDisposed      // a read from a source that was already disposed
    | NullReference       // use of the queue after Dispose(true) released it
    | NotImplemented      // a stream member the concatenation does not support
    | DisposeFault        // a source's own Dispose raised

  datatype Option<+T> = None | Some(value: T)

  datatype Result<+T> = Ok(value: T) | Err(error: Error)

  function Min(a: int, b: int): (r: int)
  {
    if a <= b then a else b
  }

  /** `buf` with `src` copied over it starting at index `offset`. */
  function Splice(buf: seq<byte>, offset: nat, src: seq<byte>): (r: seq<byte>)
    requires offset + |src| <= |buf|
    ensures |r| == |buf|
    ensures forall j :: 0 <= j < |buf| ==>
      r[j] == if offset <= j < offset + |src| then src[j - offset] else buf[j]
  {
    buf[..offset] + src + buf[offset + |src|..]
  }

  /** Copying `a` and then `b` right after it is copying `a + b`. */
  lemma SpliceTwice(buf: seq<byte>, offset: nat, a: seq<byte>, b: seq<byte>)
    requires offset + |a| + |b| <= |buf|
    ensures Splice(Splice(buf, offset, a), offset + |a|, b) == Splice(buf, offset, a + b)
  {
    var lhs, rhs := Splice(Splice(buf, offset, a), offset + |a|, b), Splice(buf, offset, a + b);
    assert forall j :: 0 <= j < |buf| ==> lhs[j] == rhs[j];
  }

  /** The observable state of one source, as a value. */
  datatype Src = Src(data: seq<byte>, disposed: bool, disposeThrows: bool)

  /** The state of a source after its Dispose was called: a source whose
      Dispose completes ends up disposed, and one whose Dispose raises is left
      exactly as it was (its disposed flag included). Its bytes are untouched
      either way. */
  function Released(s: Src): (t: Src)
    ensures !s.disposeThrows ==> t.disposed && t.data == s.data && !t.disposeThrows
    ensures s.disposeThrows ==> t == s
  {
    s.(disposed := s.disposed || !s.disposeThrows)
  }

  /** A memory-stream read from source `s`: copies min(count, |s.data|) bytes
      into buffer[offset..] and returns the source with them consumed. The
      range is checked before the disposed flag. */
  method ReadSource(s: Src, buffer: array<byte>, offset: nat, count: nat) returns (r: Result<int>, t: Src)
    modifies buffer
    ensures buffer.Length - offset < count ==> r == Err(InvalidRange) && t == s && unchanged(buffer)
    ensures buffer.Length - offset >= count && s.disposed ==>
      r == Err(ObjectDisposed) && t == s && unchanged(buffer)
    ensures buffer.Length - offset >= count && !s.disposed && count <= |s.data| ==>
      && r == Ok(count)
      && t == s.(data := s.data[count..])
      && buffer[..] == Splice(old(buffer[..]), offset, s.data[..count])
    ensures buffer.Length - offset >= count && !s.disposed && count > |s.data| ==>
      && r == Ok(|s.data|)
      && t == s.(data := [])
      && buffer[..] == Splice(old(buffer[..]), offset, s.data)
  {
    if buffer.Length - offset < count {
      return Err(InvalidRange), s;
    }
    if s.disposed {
      return Err(ObjectDisposed), s;
    }
    var n := Min(count, |s.data|);
    ghost var before := buffer[..];
    forall j | offset <= j < offset + n {
      buffer[j] := s.data[j - offset];
    }
    assert buffer[..] == Splice(before, offset, s.data[..n]);
    assert n == |s.data| ==> s.data[..n] == s.data && s.data[n..] == [];
    r, t := Ok(n), s.(data := s.data[n..]);
  }
}
