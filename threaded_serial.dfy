/**
 * The threaded serial manager: a receiver worker that frames incoming bytes
 * into lines for a callback, a sender worker that drains a FIFO of outgoing
 * buffers, and the shutdown flag and connection lifecycle that tie them
 * together. Each worker is modelled one loop iteration at a time, as a step
 * method; the threads that would run those steps are not modelled.
 */
module ThreadedSerial {
  import opened Bytes
  import opened Wrappers
  import Framing
  import Ascii

  /** Why opening the serial port failed. */
  datatype ConnectionError = PortAlreadyOpen | CannotOpenPort

  /**
   * What `start` or `stop` raises: the port could not be opened, the worker
   * threads were already started (a thread starts only once), or they were
   * never started (a thread cannot be joined before it starts).
   */
  datatype ManagerError = ConnectionFailed(cause: ConnectionError) | ThreadAlreadyStarted | ThreadNotStarted

  /** What one `readline` on the connection produced: some bytes (none on timeout), or an exception. */
  datatype ReadResult = Chunk(bytes: seq<byte>) | ReadFailed

  /** What one iteration of the receiver worker did. */
  datatype ReceiveOutcome = NoLine | LineDelivered(line: seq<byte>) | ReceiverExited

  /** What one iteration of the sender worker did. */
  datatype SendOutcome = QueueEmpty | Written(data: seq<byte>) | SenderExited

  /**
   * The serial port as the manager uses it: whether it is open, and how many
   * times it was asked to open and to close.
   */
  class Connection {
    var isOpen: bool
    ghost var opens: nat
    ghost var closes: nat

    constructor (isOpen: bool)
      ensures this.isOpen == isOpen && opens == 0 && closes == 0
    {
      this.isOpen := isOpen;
      opens := 0;
      closes := 0;
    }

    /**
     * Opens the port. A port already open is refused; otherwise the device
     * is acquired or not, as `acquired` says.
     */
    method Open(acquired: bool) returns (r: Outcome<ConnectionError>)
      modifies this
      ensures opens == old(opens) + 1 && closes == old(closes)
      ensures r.Pass? <==> !old(isOpen) && acquired
      ensures r.Fail? ==> r.error == (if old(isOpen) then PortAlreadyOpen else CannotOpenPort)
      ensures isOpen == (old(isOpen) || r.Pass?)
    {
      opens := opens + 1;
      if isOpen {
        r := Fail(PortAlreadyOpen);
      } else if !acquired {
        r := Fail(CannotOpenPort);
      } else {
        isOpen := true;
        r := Pass;
      }
    }

    /** Closes the port; closing a closed port does nothing more. */
    method Close()
      modifies this
      ensures !isOpen && closes == old(closes) + 1 && opens == old(opens)
    {
      isOpen := false;
      closes := closes + 1;
    }
  }

  /**
   * The receiver's invariant over the chunks read, the buffers delivered to
   * the callback and the accumulator. The delivered buffers followed by the
   * accumulator are exactly the bytes read. Every delivered buffer ends in a
   * line feed; the accumulator never does. When every chunk was a readline
   * chunk, the delivered buffers and the accumulator are exactly the
   * byte-at-a-time framing of the stream.
   */
  ghost predicate Receiving(received: seq<seq<byte>>, delivered: seq<seq<byte>>, rawLine: seq<byte>)
  {
    && Concat(delivered) + rawLine == Concat(received)
    && (forall k :: 0 <= k < |delivered| ==> Framing.EndsWithLF(delivered[k]))
    && !Framing.EndsWithLF(rawLine)
    && (Framing.AllReadlineChunks(received) ==>
          Framing.Split(Concat(received)) == Framing.Frames(delivered, rawLine))
  }

  /**
   * The sender's invariant. What was written, then the lost buffer, then the
   * queue, is exactly what was sent. At most one buffer is lost, and only
   * when the flag is set.
   */
  ghost predicate Sending(enqueued: seq<seq<byte>>, written: seq<seq<byte>>, lost: seq<seq<byte>>,
                          sendQueue: seq<seq<byte>>, stop: bool)
  {
    written + lost + sendQueue == enqueued && |lost| <= 1 && (lost != [] ==> stop)
  }

  /**
   * One chunk arriving keeps the receiver's invariant: the accumulator with
   * the chunk appended is delivered and emptied when it ends in a line feed,
   * and kept otherwise.
   */
  lemma ReceiveChunkKeeps(received: seq<seq<byte>>, delivered: seq<seq<byte>>, rawLine: seq<byte>, chunk: seq<byte>)
    requires Receiving(received, delivered, rawLine)
    ensures Framing.EndsWithLF(rawLine + chunk) ==>
      Receiving(received + [chunk], delivered + [rawLine + chunk], [])
    ensures !Framing.EndsWithLF(rawLine + chunk) ==>
      Receiving(received + [chunk], delivered, rawLine + chunk)
  {
    var buf := rawLine + chunk;
    ConcatAppend(received, chunk);
    ConcatAppend(delivered, buf);
    assert Concat(delivered) + buf == Concat(received) + chunk;
    if Framing.AllReadlineChunks(received + [chunk]) {
      assert Framing.AllReadlineChunks(received) by {
        forall k | 0 <= k < |received| ensures Framing.IsReadlineChunk(received[k]) {
          assert (received + [chunk])[k] == received[k];
        }
      }
      assert Framing.IsReadlineChunk((received + [chunk])[|received|]);
      ReadlineFraming(Concat(received), delivered, rawLine, chunk);
    }
    if Framing.EndsWithLF(buf) {
      forall k | 0 <= k < |delivered| + 1 ensures Framing.EndsWithLF((delivered + [buf])[k]) {
        if k < |delivered| {
          assert (delivered + [buf])[k] == delivered[k];
        }
      }
    }
  }

  /**
   * The receiver's step agrees with the byte-at-a-time framing of the
   * stream whenever every chunk so far came from readline.
   */
  lemma ReadlineFraming(before: seq<byte>, lines: seq<seq<byte>>, pending: seq<byte>, chunk: seq<byte>)
    requires Framing.Split(before) == Framing.Frames(lines, pending)
    requires !Framing.EndsWithLF(pending)
    requires Framing.IsReadlineChunk(chunk)
    ensures Framing.EndsWithLF(pending + chunk) ==>
      Framing.Split(before + chunk) == Framing.Frames(lines + [pending + chunk], [])
    ensures !Framing.EndsWithLF(pending + chunk) ==>
      Framing.Split(before + chunk) == Framing.Frames(lines, pending + chunk)
  {
    Framing.SplitAppend(before, chunk);
    Framing.FeedReadlineChunk(pending, chunk);
    if chunk == [] {
      assert pending + chunk == pending;
    }
  }

  class ThreadedSerialManager {
    const connection: Connection
    /** Whether the two worker threads have been started. */
    var started: bool
    /** The shutdown flag shared by both workers and the manager. */
    var stop: bool
    /** Buffers passed to send and not yet taken by the sender worker, oldest first. */
    var sendQueue: seq<seq<byte>>
    /** The receiver's accumulator: bytes of the line in progress. */
    var rawLine: seq<byte>

    /** Every buffer ever passed to send, in order. */
    ghost var enqueued: seq<seq<byte>>
    /** Every buffer the sender wrote to the connection, in order. */
    ghost var written: seq<seq<byte>>
    /** The buffer taken from the queue whose write failed, if any. */
    ghost var lost: seq<seq<byte>>
    /** Every chunk readline returned to the receiver, in order. */
    ghost var received: seq<seq<byte>>
    /** Every buffer passed to the callback, in order. */
    ghost var delivered: seq<seq<byte>>

    /**
     * The manager's invariant: that of the receiver and that of the sender,
     * and before the workers start nothing has been read, delivered or written.
     */
    ghost predicate Valid()
      reads this
    {
      && Receiving(received, delivered, rawLine)
      && Sending(enqueued, written, lost, sendQueue, stop)
      && (!started ==> received == [] && rawLine == [] && written == [] && lost == [])
    }

    /** A manager around `connection`, with the flag clear and nothing queued, read or sent. */
    constructor (connection: Connection)
      ensures Valid()
      ensures this.connection == connection
      ensures !started && !stop && sendQueue == [] && rawLine == []
      ensures enqueued == [] && written == [] && lost == [] && received == [] && delivered == []
    {
      this.connection := connection;
      started := false;
      stop := false;
      sendQueue := [];
      rawLine := [];
      enqueued := [];
      written := [];
      lost := [];
      received := [];
      delivered := [];
    }

    /**
     * Starts managing the port: opens it unless it is already open, then
     * starts the two workers. A failure to open is returned and no worker
     * starts; workers already started cannot start again, and that is
     * returned too, after the port was opened.
     */
    method Start(acquired: bool) returns (r: Outcome<ManagerError>)
      requires Valid()
      modifies this, connection
      ensures Valid()
      ensures connection.opens == old(connection.opens) + (if old(connection.isOpen) then 0 else 1)
      ensures connection.closes == old(connection.closes)
      ensures connection.isOpen == (old(connection.isOpen) || acquired)
      ensures r.Pass? <==> (old(connection.isOpen) || acquired) && !old(started)
      ensures r.Fail? ==>
        r.error == if old(connection.isOpen) || acquired then ThreadAlreadyStarted
                   else ConnectionFailed(CannotOpenPort)
      ensures started == (old(started) || r.Pass?)
      ensures stop == old(stop) && sendQueue == old(sendQueue) && rawLine == old(rawLine)
      ensures enqueued == old(enqueued) && written == old(written) && lost == old(lost)
      ensures received == old(received) && delivered == old(delivered)
    {
      if !connection.isOpen {
        var outcome := connection.Open(acquired);
        if outcome.Fail? {
          return Fail(ConnectionFailed(outcome.error));
        }
      }
      if started {
        return Fail(ThreadAlreadyStarted);
      }
      started := true;
      r := Pass;
    }

    /**
     * Sets the shutdown flag, then waits for both workers and closes the
     * port exactly when `close` is true. Workers never started cannot be
     * waited for: that is returned, and the port is left as it was. Nothing
     * queued, read or pending is touched.
     */
    method Stop(close: bool) returns (r: Outcome<ManagerError>)
      requires Valid()
      modifies this, connection
      ensures Valid()
      ensures stop && started == old(started)
      ensures r.Pass? <==> started
      ensures r.Fail? ==> r.error == ThreadNotStarted
      ensures sendQueue == old(sendQueue) && rawLine == old(rawLine)
      ensures enqueued == old(enqueued) && written == old(written) && lost == old(lost)
      ensures received == old(received) && delivered == old(delivered)
      ensures connection.isOpen == (old(connection.isOpen) && !(started && close))
      ensures connection.closes == old(connection.closes) + (if started && close then 1 else 0)
      ensures connection.opens == old(connection.opens)
    {
      stop := true;
      if !started {
        return Fail(ThreadNotStarted);
      }
      if close {
        connection.Close();
      }
      r := Pass;
    }

    /** Queues `data` for the sender worker, at the back. */
    method Send(data: seq<byte>)
      requires Valid()
      modifies this
      ensures Valid()
      ensures sendQueue == old(sendQueue) + [data] && enqueued == old(enqueued) + [data]
      ensures started == old(started) && stop == old(stop) && rawLine == old(rawLine)
      ensures written == old(written) && lost == old(lost)
      ensures received == old(received) && delivered == old(delivered)
    {
      sendQueue := sendQueue + [data];
      enqueued := enqueued + [data];
      assert written + lost + sendQueue == (written + lost + old(sendQueue)) + [data];
    }

    /**
     * Encodes `s` as ASCII and queues the bytes. A character that has no
     * ASCII code is an error, and then nothing is queued.
     */
    method SendString(s: string) returns (r: Outcome<Ascii.EncodeError>)
      requires Valid()
      modifies this
      ensures Valid()
      ensures r.Pass? <==> Ascii.IsAscii(s)
      ensures r.Pass? ==> sendQueue == old(sendQueue) + [Ascii.Encode(s).value]
      ensures r.Pass? ==> enqueued == old(enqueued) + [Ascii.Encode(s).value]
      ensures r.Fail? ==> r.error == Ascii.Encode(s).error
      ensures r.Fail? ==> sendQueue == old(sendQueue) && enqueued == old(enqueued)
      ensures started == old(started) && stop == old(stop) && rawLine == old(rawLine)
      ensures written == old(written) && lost == old(lost)
      ensures received == old(received) && delivered == old(delivered)
    {
      var encoded := Ascii.Encode(s);
      match encoded
      case Success(data) =>
        Send(data);
        r := Pass;
      case Failure(e) =>
        r := Fail(e);
    }

    /**
     * One iteration of the receiver worker. With the flag set the worker has
     * left its loop and nothing changes. A failed read ends the worker and
     * sets the flag. Otherwise the chunk read is appended to the accumulator;
     * if the accumulator then ends in a line feed it is passed to the
     * callback and emptied, and if not it is kept.
     */
    method ReceiveStep(read: ReadResult) returns (outcome: ReceiveOutcome)
      requires Valid()
      requires started
      modifies this
      ensures Valid()
      ensures old(stop) ==> outcome == ReceiverExited && stop
      ensures old(stop) || read.ReadFailed? ==>
        stop && outcome == ReceiverExited &&
        rawLine == old(rawLine) && received == old(received) && delivered == old(delivered)
      ensures !old(stop) && read.Chunk? ==>
        !stop && received == old(received) + [read.bytes] &&
        var buf := old(rawLine) + read.bytes;
        if Framing.EndsWithLF(buf) then
          outcome == LineDelivered(buf) && delivered == old(delivered) + [buf] && rawLine == []
        else
          outcome == NoLine && delivered == old(delivered) && rawLine == buf
      ensures started == old(started) && sendQueue == old(sendQueue)
      ensures enqueued == old(enqueued) && written == old(written) && lost == old(lost)
    {
      if stop {
        return ReceiverExited;
      }
      match read
      case ReadFailed =>
        stop := true;
        outcome := ReceiverExited;
      case Chunk(bytes) =>
        ReceiveChunkKeeps(received, delivered, rawLine, bytes);
        received := received + [bytes];
        rawLine := rawLine + bytes;
        if Framing.EndsWithLF(rawLine) {
          delivered := delivered + [rawLine];
          outcome := LineDelivered(rawLine);
          rawLine := [];
        } else {
          outcome := NoLine;
        }
    }

    /**
     * One iteration of the sender worker. With the flag set the worker has
     * left its loop and nothing changes. An empty queue means the timed wait
     * ran out, and nothing changes either. Otherwise the front buffer is
     * taken and written; a failed write loses that buffer, ends the worker
     * and sets the flag.
     */
    method SendStep(writeSucceeds: bool) returns (outcome: SendOutcome)
      requires Valid()
      requires started
      modifies this
      ensures Valid()
      ensures old(stop) ==> outcome == SenderExited && stop
      ensures old(stop) || old(sendQueue) == [] ==>
        stop == old(stop) && sendQueue == old(sendQueue) && written == old(written) && lost == old(lost)
      ensures !old(stop) && old(sendQueue) == [] ==> outcome == QueueEmpty
      ensures !old(stop) && old(sendQueue) != [] ==>
        sendQueue == old(sendQueue)[1..] &&
        if writeSucceeds then
          outcome == Written(old(sendQueue)[0]) && !stop &&
          written == old(written) + [old(sendQueue)[0]] && lost == old(lost)
        else
          outcome == SenderExited && stop &&
          written == old(written) && lost == old(lost) + [old(sendQueue)[0]]
      ensures started == old(started) && enqueued == old(enqueued)
      ensures rawLine == old(rawLine) && received == old(received) && delivered == old(delivered)
    {
      if stop {
        return SenderExited;
      }
      if sendQueue == [] {
        return QueueEmpty;
      }
      var data := sendQueue[0];
      sendQueue := sendQueue[1..];
      assert [data] + sendQueue == old(sendQueue);
      if writeSucceeds {
        written := written + [data];
        outcome := Written(data);
      } else {
        lost := lost + [data];
        stop := true;
        outcome := SenderExited;
      }
    }
  }

  /**
   * Outbound order is send order: what was written is a prefix of what was
   * sent, and while no write has failed, the written buffers followed by the
   * queue are exactly the buffers sent.
   */
  lemma WrittenInSendOrder(m: ThreadedSerialManager)
    requires m.Valid()
    ensures |m.written| <= |m.enqueued| && m.written == m.enqueued[..|m.written|]
    ensures m.lost == [] ==> m.written + m.sendQueue == m.enqueued
    ensures !m.stop ==> m.written + m.sendQueue == m.enqueued
  {
  }

  /**
   * When every chunk came from readline, each buffer handed to the callback
   * is one complete line, with its line feed at the end and no other, and the
   * accumulator holds no line feed.
   */
  lemma DeliveredAreLines(m: ThreadedSerialManager)
    requires m.Valid()
    requires Framing.AllReadlineChunks(m.received)
    ensures Framing.AllLines(m.delivered)
    ensures LF !in m.rawLine
  {
    Framing.SplitSound(Concat(m.received));
  }

  /** Chunks "AB", "C\n" and "D\n" reach the callback as "ABC\n" and then "D\n". */
  method ReceiveScenario()
  {
    var port := new Connection(true);
    var m := new ThreadedSerialManager(port);
    var started := m.Start(false);
    assert started == Pass;
    var ab: seq<byte>, cLF: seq<byte>, dLF: seq<byte> := [65, 66], [67, 10], [68, 10];
    var o := m.ReceiveStep(Chunk(ab));
    assert !Framing.EndsWithLF([] + ab);
    assert o == NoLine && m.rawLine == ab && m.delivered == [];
    o := m.ReceiveStep(Chunk(cLF));
    assert Framing.EndsWithLF(ab + cLF);
    assert o == LineDelivered(ab + cLF) && m.rawLine == [];
    o := m.ReceiveStep(Chunk(dLF));
    assert [] + dLF == dLF;
    assert o == LineDelivered(dLF);
    assert ab + cLF == [65, 66, 67, 10];
    assert m.delivered == [[65, 66, 67, 10], [68, 10]];
  }

  /** The ASCII encoding of "PING\n". */
  lemma PingEncoding()
    ensures Ascii.Encode("PING\n") == Success([80, 73, 78, 71, 10])
  {
    var ping := Ascii.Encode("PING\n").value;
    assert ping == [80, 73, 78, 71, 10];
  }

  /** "PING\n" sent as a string is written as its five bytes, and then the queue is empty. */
  method SendScenario()
  {
    var port := new Connection(false);
    var m := new ThreadedSerialManager(port);
    var started := m.Start(true);
    assert started == Pass && port.isOpen;
    var ping: seq<byte> := [80, 73, 78, 71, 10];
    PingEncoding();
    var sent := m.SendString("PING\n");
    assert sent == Pass && m.sendQueue == [ping];
    var o := m.SendStep(true);
    assert o == Written(ping) && m.sendQueue == [];
    o := m.SendStep(true);
    assert o == QueueEmpty && m.written == [ping];
  }

  /**
   * After stop the port is closed, a buffer sent is queued but never
   * written, a line read is never delivered, and non-ASCII text is refused.
   */
  method StopScenario()
  {
    var port := new Connection(true);
    var m := new ThreadedSerialManager(port);
    var started := m.Start(false);
    var stopped := m.Stop(true);
    assert started == Pass && stopped == Pass && !port.isOpen;
    m.Send([1]);
    var o := m.SendStep(true);
    assert o == SenderExited && m.written == [];
    var r := m.ReceiveStep(Chunk([69, 10]));
    assert r == ReceiverExited && m.delivered == [];
    var rejected := m.SendString("\U{e9}");
    assert rejected == Fail(Ascii.UnicodeEncodeError(0)) && m.sendQueue == [[1]];
  }

  /**
   * Stopping a manager that never started fails at the first wait and leaves
   * the port open; a start whose open fails starts no worker, and starting
   * twice is refused.
   */
  method LifecycleScenario()
  {
    var port := new Connection(true);
    var m := new ThreadedSerialManager(port);
    var stopped := m.Stop(true);
    assert stopped == Fail(ThreadNotStarted) && port.isOpen && port.closes == 0;
    var closed := new Connection(false);
    var n := new ThreadedSerialManager(closed);
    var started := n.Start(false);
    assert started == Fail(ConnectionFailed(CannotOpenPort)) && !n.started && !closed.isOpen;
    started := n.Start(true);
    assert started == Pass && n.started && closed.isOpen;
    started := n.Start(true);
    assert started == Fail(ThreadAlreadyStarted);
  }
}
