# ConcatenatedStream, modelled in Dafny

`ConcatenatedStream` (namespace `My.Streams`) is a read-only, forward-only
`System.IO.Stream` that presents a queue of underlying streams as one
continuous byte source. `Read` reads from the head stream. When the head
delivers fewer bytes than asked, it is dequeued and disposed, and the
shortfall is read recursively from the rest of the queue. `Dispose(true)`
drains the queue, disposing every stream, then drops the queue and marks
the wrapper disposed.

The project has three modules.

- `SourceStreams` (`source_streams.dfy`) models the underlying streams.
  - A source is the value `Src(data, disposed, disposeThrows)`: its unread bytes, its disposed flag, and whether its own `Dispose` raises.
  - `ReadSource` is a memory-stream read into a real `array<byte>`. It checks the range, then the disposed flag, then copies `min(count, |data|)` bytes to `buffer[offset..]`.
  - The module also holds the error variants and the `Result`/`Option` wrappers.
- `QueueModel` (`queue_model.dfy`) is a pure model of one `Read` call on values (`Read`) and of the drain in `Dispose(true)` (`Drain`), with the lemmas about them.
  - `Read` takes a `Continuation` parameter. `AsWritten` is the code: the recursive call at line 102 writes at this level's own byte count. `Intended` writes right after the bytes already written (`offset + bytesRead`).
- `ConcatStream` (`concat_stream.dfy`) holds the imperative class `ConcatenatedStream`.
  - Its fields are the queue (`streams`, `None` once `Dispose(true)` has set it to null) and `disposed`.
  - The ghost field `released` logs the sources the stream has dequeued and disposed, in order, with their final states.
  - `Read` follows the source's recursion as the mutually recursive methods `ReadQueued`, `DequeueAndContinue` and `ReadRest`. They modify `buffer` in place and are proved against `QueueModel.Read(…, AsWritten)`. The `decreases |q|` measure bounds the recursion depth by the queue length.
  - `Dispose` keeps the source's `while` loop and is proved against `QueueModel.Drain`.

Where the code and its documentation disagree, the model follows the code.

- **Continuation offset.** The doc comment at `ConcatStream.cs:21` says the recursive read no longer overwrites the buffer. The code at line 102 still passes `bytesRead` as the offset, not `offset + bytesRead`, so later bytes can overwrite earlier ones. See "## Findings".
- **Dispose after a fault.** A stream whose `Dispose` raises sends control out of the drain loop into the `catch`. The remaining streams stay queued and undisposed, and `disposed = true` is skipped. A later `Dispose` therefore tries again. A best-effort, always-closing `Dispose` is not what the code does.
- **Reads after Dispose.** After `Dispose(true)` the queue is null, so a `Read` fails at line 88 with a null dereference (`NullReference`). The failure is not a dedicated state error. After `Dispose(false)` reads go on as before.
- **Unsupported members.** They raise `NotImplementedException` (`NotImplemented`).

## Model

| member | source | states |
|---|---|---|
| ConcatStream.ConcatenatedStream.constructor | ConcatStream.cs:34-40 | the queue holds exactly the given sources in their order; not disposed, nothing released |
| ConcatStream.ConcatenatedStream.Create | ConcatStream.cs:34-40 | an absent source sequence is an `ArgumentNull` error; otherwise a fresh stream whose queue is the given sequence in order |
| ConcatStream.ConcatenatedStream.Read | ConcatStream.cs:77-108 | a null buffer, a negative offset and then a negative count fail, in that order, before any source is touched, with queue, log and buffer unchanged; a dropped queue fails with `NullReference`; an empty queue returns 0 and changes nothing; otherwise result, buffer, queue and released sources are exactly those of `QueueModel.Read` (as written) |
| ConcatStream.ConcatenatedStream.ReadQueued | ConcatStream.cs:88-104 | past the argument checks: the empty-queue result, the head read, its errors and the full-read case agree with `QueueModel.Read`; a short read continues in `DequeueAndContinue` |
| ConcatStream.ConcatenatedStream.DequeueAndContinue | ConcatStream.cs:96-101 | after a short head read the head is dequeued and its disposal logged; a raising `Dispose` ends the call with that fault; the whole call agrees with `QueueModel.Read` |
| ConcatStream.ConcatenatedStream.ReadRest | ConcatStream.cs:101-104 | the continuation reads `count - bytesRead` at offset `bytesRead` from the rest of the queue and adds `bytesRead` to its count, agreeing with `QueueModel.Read` |
| ConcatStream.ConcatenatedStream.Dispose | ConcatStream.cs:110-142 | a disposed stream is left unchanged; `Dispose(false)` only sets `disposed`; `Dispose(true)` dequeues and disposes sources as `QueueModel.Drain` does: a full drain drops the queue and sets `disposed`, a drain stopped by a raising source leaves the rest queued and `disposed` false |
| ConcatStream.ConcatenatedStream.Length | ConcatStream.cs:59-62 | always fails with `NotImplemented` |
| ConcatStream.ConcatenatedStream.Position | ConcatStream.cs:66-69 | always fails with `NotImplemented` |
| ConcatStream.ConcatenatedStream.SetPosition | ConcatStream.cs:70-73 | always fails with `NotImplemented` |
| ConcatStream.ConcatenatedStream.Write | ConcatStream.cs:144-147 | always fails with `NotImplemented` |
| ConcatStream.ConcatenatedStream.Flush | ConcatStream.cs:149-152 | always fails with `NotImplemented` |
| ConcatStream.ConcatenatedStream.Seek | ConcatStream.cs:154-157 | always fails with `NotImplemented` |
| ConcatStream.ConcatenatedStream.SetLength | ConcatStream.cs:159-162 | always fails with `NotImplemented` |
| SourceStreams.ReadSource | ConcatStream.cs:95 | the head stream's read: a range that does not fit fails first, then a disposed source fails; otherwise it copies `min(count, unread)` bytes to `buffer[offset..]`, leaves every other byte alone, returns that count and consumes exactly those bytes |
| SourceStreams.Released | ConcatStream.cs:99 | the state a dequeued source is left in by its own `Dispose`: a source whose `Dispose` completes is disposed with its bytes and flags otherwise kept; one whose `Dispose` raises is left exactly as it was |
| SourceStreams.Splice | ConcatStream.cs:95 | copying `src` into `buf` at `offset` keeps the length, places `src[j - offset]` at each `j` in range and leaves every other byte |
| SourceStreams.SpliceTwice | ConcatStream.cs:102 | copying `a` and then `b` right after it equals copying `a + b` |
| QueueModel.Read | ConcatStream.cs:77-108 | the result is within `0..count`; a short result empties the queue; the only errors are the source's range, disposed and dispose faults; every source is either still queued or released |
| QueueModel.ShortReadContinues | ConcatStream.cs:96-102 | unfolding step of `QueueModel.Read`, used by the proofs: a short head read disposes the head and continues on the rest of the queue with the shortfall, at the offset the mode picks, adding the counts |
| QueueModel.ShortReadFaults | ConcatStream.cs:99 | unfolding step of `QueueModel.Read`, used by the proofs: a short head read whose `Dispose` raises fails with that fault after copying the head's bytes and dequeuing it |
| QueueModel.ReadShrinksFromFront | ConcatStream.cs:95-102 | a read only shrinks the queue from the front: the i-th released source is the i-th queued one, exhausted and disposed unless its `Dispose` raised; the new head has only leading bytes consumed; the sources behind it are unchanged and in order |
| QueueModel.ShortReadShrinksFromFront | ConcatStream.cs:96-102 | the same for a short head read |
| QueueModel.ContinuedShrinks | ConcatStream.cs:99-102 | dequeuing the head in front of a continuation that shrank the rest from the front shrinks the whole queue from the front |
| QueueModel.PlainReadConsumesPrefix | ConcatStream.cs:95-102 | with memory-like sources the result is `min(count, total unread bytes)` and the bytes left queued are the concatenation with that many leading bytes removed |
| QueueModel.PlainShortRead | ConcatStream.cs:96-102 | the same for a short head read |
| QueueModel.ContinuedConsumes | ConcatStream.cs:102 | adding the head's count to a continuation that consumed its share of the tail consumes the matching prefix of head plus tail |
| QueueModel.OutcomeIgnoresPlacement | ConcatStream.cs:102 | result, remaining queue and released sources do not depend on the buffer, the offset or the continuation mode, as long as the range check decides alike; only where bytes land depends on them |
| QueueModel.ShortReadIgnoresPlacement | ConcatStream.cs:102 | the same for a short head read |
| QueueModel.FullHeadRead | ConcatStream.cs:95-96 | unfolding step of `QueueModel.Read`, and the full-read property itself: a head holding at least `count` bytes delivers `count`, stays queued with those bytes consumed, and nothing is released |
| QueueModel.ZeroCountKeepsQueue | ConcatStream.cs:95-96 | a zero-count read on a non-empty queue with an undisposed head returns 0 and changes neither buffer nor queue |
| QueueModel.IntendedReadIsConcatenation | ConcatStream.cs:102 | with the intended continuation offset, the buffer receives the next `min(count, total)` bytes of the concatenation at `offset` |
| QueueModel.IntendedShortRead | ConcatStream.cs:102 | the same for a short head read |
| QueueModel.ContinuedPlacement | ConcatStream.cs:102 | writing the head's bytes and then the continuation's share right after them writes the matching prefix of the concatenation |
| QueueModel.ContiguousWithinTwoSources | ConcatStream.cs:102 | as written, with offset 0: when at most two sources serve the request, the buffer holds the concatenated bytes |
| QueueModel.AsWrittenIsIntendedWithinTwoSources | ConcatStream.cs:102 | as written, with offset 0 and at most two serving sources, the outcome equals the intended one |
| QueueModel.OverwriteExample | ConcatStream.cs:102 | sources "AB", "" and "CDE" with offset 0 and count 10: the result is 5 but the buffer starts "CDE", overwriting "AB" |
| QueueModel.OverwriteExampleTail | ConcatStream.cs:102 | the second and third levels of that example: "CDE" lands at the second level's own count, 0 |
| QueueModel.OffsetExample | ConcatStream.cs:102 | sources "AB" and "CD" with offset 3 and count 4: as written, "CD" lands at index 2, before the caller's offset; the intended offset puts "ABCD" at 3 |
| QueueModel.Drain | ConcatStream.cs:119-124 | the drain releases a prefix of the queue in order, leaves the rest untouched, and the i-th released source is the i-th queued one after its `Dispose` |
| QueueModel.DrainCompletedIff | ConcatStream.cs:115-134 | a drain runs to the end exactly when no source's `Dispose` raises |
| QueueModel.DrainStopsAt | ConcatStream.cs:119-134 | a drain whose first raising source is at index `i` releases exactly the sources up to `i` and leaves the ones after it queued |
| QueueModel.DrainCompletes | ConcatStream.cs:119-126 | when no source raises, the drain releases every source and leaves nothing queued |

## Left out

- Logging: the `Debug.WriteLine` calls and the `componentName` string are output side effects only.
- `base.Dispose(disposing)` and the finalizer path belong to the .NET framework.
- The public `Dispose()`/`Close()` that call `Dispose(bool)` are inherited from `Stream` and are not in this file.
- Real `System.IO.Stream` implementations are replaced by the memory-stream source `Src`. Pipes, blocking and reads smaller than asked for while data remains are not modelled.
- Sources are values owned by the stream, not shared objects. The state a dequeued source is left in is recorded in the ghost log `released`. Two queue entries that are the same stream object (aliasing) are not modelled.
- The constructor enumerates the `IEnumerable` twice (`Count()`, then the `Queue` constructor). This is a library detail. The model takes one sequence.
- `int` arithmetic is unbounded. The 32-bit `int` offsets, counts and results of the source are not bounded in the model; every count it returns is at most the buffer length.
- Thread safety is out of scope: the class is documented as not thread safe.
- SourceStreams.Released: a source whose own `Dispose` raises is taken to keep its `disposed` flag as it was; a real stream may have released part of itself before raising, and that partial state is not modelled.
- Exact .NET exception types become variants of `Error`. A source's `ArgumentException` for a bad range is `InvalidRange`.
- `ConcatStream.ConcatenatedStream.ReadRest` calls `ReadQueued` directly and does not re-run the argument checks as the recursive `Read` does. Those checks always pass there, because the offset is a byte count and the shortfall is positive.
- `QueueModel.ContiguousWithinTwoSources` is stated only for offset 0 and at most two serving sources. Outside those cases the code as written misplaces bytes (see `QueueModel.OffsetExample` and `QueueModel.OverwriteExample`).
- `CanRead`, `CanSeek` and `CanWrite` are constants of the class (`true`, `false`, `false`) and have no contract of their own.

## Findings

| source | as written | input that shows it | evidently intended | confidence | as-written member | corrected member |
|---|---|---|---|---|---|---|
| ConcatStream.cs:102 | the continuation read uses this level's `bytesRead` as the buffer offset | sources "AB", "", "CDE", offset 0, count 10: returns 5, but the buffer holds "CDE" at index 0 over "AB" | continue at `offset + bytesRead`, so the buffer receives the concatenation in order; the comments at lines 21 and 102 name `bytesRead` as the offset, but their stated aim, that the recursive read must not overwrite bytes already in the buffer, holds only with `offset + bytesRead` | not executed | QueueModel.OverwriteExample | QueueModel.IntendedReadIsConcatenation |
