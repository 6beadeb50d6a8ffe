# threaded_serial in Dafny

A model of `ThreadedSerialManager`, the class at the heart of the
threaded_serial package. It wraps a pyserial connection with two workers: a
receiver that reads the port with `readline`, gathers bytes into a line
buffer and hands every buffer ending in a line feed (byte 10) to a callback,
and a sender that takes buffers from a FIFO filled by `send` / `send_string`
and writes them to the port. A boolean `_stop` flag shuts both workers down;
`start` opens the port if needed and `stop` sets the flag and optionally
closes the port.

The model has no threads. Each worker's loop becomes one step method that
runs a single loop iteration against the manager's fields, so any
interleaving of the workers and callers is a sequence of method calls.
What remains of the two thread objects is whether they have been started
(`started`). `Start` starts them only after the port is open, and only the
first time. `Stop` on a manager whose threads never started fails the way
Python's `join` does, before the port is closed. A worker step can only run
once the threads are started.

- `bytes.dfy` (module `Bytes`): the `byte` type, the line feed `LF`, and
  `Concat` of a sequence of buffers.
- `framing.dfy` (module `Framing`): a reference framing of a byte stream
  that works one byte at a time (`Feed`, `FeedAll`, `Split`). It is written
  independently of the receiver, which frames whole chunks. Lemmas here show
  it loses no byte, produces only complete lines, and is incremental.
- `ascii.dfy` (module `Ascii`): strict US-ASCII encoding, as Python's
  `str.encode("ascii")` does it.
- `wrappers.dfy` (module `Wrappers`): `Result` and `Outcome`, standing in for
  raised exceptions.
- `threaded_serial.dfy` (module `ThreadedSerial`): the `Connection` the
  manager drives, and the class `ThreadedSerialManager` with fields
`started` (the worker threads have been started), `stop`
  (the `_stop` flag), `sendQueue` (the `queue.Queue`), `rawLine` (the
  receiver's `raw_line`) and the ghost histories `enqueued`, `written`,
  `lost`, `received` and `delivered`. The callback is modelled by appending
  to `delivered`; a write to the port by appending to `written`.

`Valid()` is the manager's invariant, and every method keeps it. It is the
conjunction of `Receiving` and `Sending`, plus the fact that nothing is read,
delivered or written before the threads start:

- Receiving. The delivered buffers followed by `rawLine` are exactly the
  bytes of all chunks read, so no received byte is lost or duplicated. Every
  delivered buffer ends in a line feed. `rawLine` never does. When every
  chunk is one `readline` can return (a line feed only as its last byte),
  the delivered buffers are exactly the complete lines of the byte stream,
  and `rawLine` is its unfinished last line.
- Sending. `written + lost + sendQueue == enqueued`: buffers leave in the
  order they were sent. At most one buffer is lost: the one whose write
  raised. It is lost only once the flag is set.

The flag only moves from false to true. `Stop` sets it. A failed read or
write sets it. No method clears it. A step taken while it is set returns
`ReceiverExited` / `SenderExited` and changes nothing.

Four client methods check concrete runs against the contracts alone:

- `ReceiveScenario`: readline chunks `AB`, `C\n`, `D\n` reach the callback as `ABC\n`, then `D\n`.
- `SendScenario`: `send_string("PING\n")` is written as the five bytes 80, 73, 78, 71, 10, and then the queue is empty.
- `StopScenario`: after `stop` the port is closed. A buffer sent afterwards is never written, and a line read afterwards is never delivered.
- `LifecycleScenario`: `stop` before `start` fails and leaves the port open. A `start` whose open fails starts nothing. A second `start` is refused.

A caller might expect a failure while closing the port to be logged and
swallowed. In threaded_serial/threaded_serial.py:53-54, however, `close()` is
called outside any `try`, so such an exception would propagate out of `stop`.
The model's `Close` cannot fail (see below).

## Model

| member | source | states |
|---|---|---|
| `ThreadedSerial.ThreadedSerialManager.constructor` | threaded_serial/threaded_serial.py:9-18 | a new manager keeps the given connection, has the flag clear, an empty queue and accumulator and empty histories, and satisfies the invariant |
| `ThreadedSerial.ThreadedSerialManager.Start` | threaded_serial/threaded_serial.py:27-38 | open is called exactly when the port was not already open; a failed open is returned and starts no thread; otherwise the port is open and the threads start, unless they were already started, which is returned as an error; queue, flag and histories are untouched |
| `ThreadedSerial.ThreadedSerialManager.Stop` | threaded_serial/threaded_serial.py:40-55 | the flag is set; on a manager whose threads never started the first join fails, which is returned, and the port is left as it was; otherwise the port is closed, and close is called once, if and only if `close` is true; queue, accumulator and histories are untouched |
| `ThreadedSerial.ThreadedSerialManager.Send` | threaded_serial/threaded_serial.py:57-58 | the buffer goes to the back of the queue and of the send history; the flag and the receiver are untouched; the invariant is kept |
| `ThreadedSerial.ThreadedSerialManager.SendString` | threaded_serial/threaded_serial.py:60-61 | succeeds if and only if every character is below 128, and then queues exactly the ASCII encoding; otherwise returns the encoding error and the queue is unchanged |
| `ThreadedSerial.ThreadedSerialManager.ReceiveStep` | threaded_serial/threaded_serial.py:63-82 | with the flag set nothing changes; a failed read sets the flag; otherwise the chunk is appended to the accumulator, which is delivered and emptied exactly when it is non-empty and ends in a line feed, and kept otherwise; the invariant (no byte lost or duplicated, delivered buffers end in a line feed) is kept |
| `ThreadedSerial.ReceiveChunkKeeps` | threaded_serial/threaded_serial.py:71-78 | a chunk appended to the accumulator, delivered and reset when it ends in a line feed and kept otherwise, preserves the receiver invariant: no byte lost or duplicated, every delivered buffer ends in a line feed, the accumulator never does, and with readline chunks the delivered lines are the stream's complete lines |
| `ThreadedSerial.ReadlineFraming` | threaded_serial/threaded_serial.py:69-78 | one receiver step over a readline chunk moves the accumulator and the delivered lines exactly as the byte-at-a-time framing of the whole stream moves |
| `ThreadedSerial.ThreadedSerialManager.SendStep` | threaded_serial/threaded_serial.py:84-101 | with the flag set, or an empty queue, nothing changes; otherwise the front buffer leaves the queue and is written, or, if the write fails, is lost and the flag is set; the receiver is untouched |
| `ThreadedSerial.WrittenInSendOrder` | threaded_serial/threaded_serial.py:89-96 | what was written is a prefix of what was sent; with nothing lost (in particular, while the flag is clear), written followed by the queue is exactly what was sent |
| `ThreadedSerial.DeliveredAreLines` | threaded_serial/threaded_serial.py:69-78 | with readline chunks, every delivered buffer holds exactly one line feed, at its end, and the accumulator holds none |
| `ThreadedSerial.Connection.Open` | threaded_serial/threaded_serial.py:32-34 | opening succeeds if and only if the port was closed and could be acquired; an already-open port is refused |
| `ThreadedSerial.Connection.Close` | threaded_serial/threaded_serial.py:53-54 | the port is closed afterwards and one close call is counted |
| `ThreadedSerial.PingEncoding` | threaded_serial/threaded_serial.py:60-61 | the ASCII encoding of the text `PING\n` is the five bytes 80, 73, 78, 71, 10 |
| `Ascii.Encode` | threaded_serial/threaded_serial.py:60-61 | succeeds if and only if every character is below 128; the result has one byte per character holding its code; a failure names the first character that cannot be encoded |
| `Framing.SplitSound` | threaded_serial/threaded_serial.py:69-78 | the framing of any stream loses and duplicates no byte, yields only complete lines, and leaves no line feed pending |
| `Framing.SplitAppend` | threaded_serial/threaded_serial.py:70-78 | framing is incremental: the lines of `s + t` are those of `s` followed by those got by feeding `t` to the pending bytes of `s` |
| `Framing.FeedReadlineChunk` | threaded_serial/threaded_serial.py:71-78 | a non-empty readline chunk added to pending bytes yields one line, pending bytes and chunk together, exactly when the result ends in a line feed; an empty chunk, or a result not ending in a line feed, yields no line and extends the pending bytes |
| `Framing.FeedAllSound` | threaded_serial/threaded_serial.py:69-78 | feeding bytes to a correct framing keeps it correct for the longer stream |

## Left out

- Threads: creating the two worker threads, running them concurrently, and waiting for them in `stop` with its timeout (threaded_serial/threaded_serial.py:17-18, 36-37, 49-52). The model keeps only whether they were started; an interleaving is a sequence of step calls, and `Stop` does not wait for a worker to reach its exit.
- Stop: is modelled as called from the caller's own thread. A `stop` called from inside a worker, for example from the callback, skips the wait on that worker (lines 49, 51); that path is not modelled.
- Timing: the port's read timeout of 0.1 s (line 11) and the 0.1 s wait of the queue `get` (line 92). An empty queue at a sender step stands for the wait running out.
- Memory visibility of `_stop` across threads, because the model has none.
- pyserial I/O is foreign code. `readline` becomes the `ReadResult` parameter of `ReceiveStep`: a chunk, or a fatal error. `write` becomes the `writeSucceeds` parameter of `SendStep`. `open` becomes `Connection.Open` with the `acquired` parameter. The port's `name` is used only in log messages and is not modelled.
- Connection.Close: cannot fail in the model, because pyserial's failure modes of close are not modelled; in the source such a failure would propagate out of `stop`.
- SendStep: a write that fails part-way is modelled as writing nothing; the bytes that may have reached the port are not tracked.
- ReceiveStep: the callback is the caller's code and is modelled as always returning. An exception raised by it would also end the receiver and set the flag (lines 79-81); that path is not modelled.
- ReceiveStep: `raw_line` is a local of the receiver thread and is a field here. When the receiver exits, the bytes left in it are never delivered; the model keeps them in `rawLine`, and no later step delivers them.
- SendString: only the default `"ascii"` encoding is modelled. Other encodings are codec tables outside this code.
- `send` accepts any Python object and passes it to `write`; the model queues byte sequences only.
- Logging and the diagnostic `print(type(data))` (lines 31-38, 47, 55, 67, 80-82, 98-101) are side effects with no logic.
- The context-manager hooks `__enter__` / `__exit__` (lines 20-25) only call `start` and `stop`.
- setup.py is packaging metadata.
