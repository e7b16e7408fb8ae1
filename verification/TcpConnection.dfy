/** The sending half and the closing of one connection (`net/TcpConnection`), run on
    its loop thread.  User callbacks run inside the operations and may call back into
    the connection; `depth` bounds how deep such calls nest and is arbitrary. */
module TcpConnection {
  import opened NetBuffer

  datatype Outcome = AllWritten | Pending | Failed

  /** The callbacks that are run: the connection callback on the way up and on the way down,
      write complete, high-water mark, and the close callback. */
  datatype Notice = Up | Down | WriteComplete | HighWater | Closed

  datatype State = Disconnected | Connecting | Connected | Disconnecting

  /** The writing side of a socket.  A `write` takes any prefix of what it is offered,
      possibly nothing, or fails; `writes` counts the calls, `offered` is what the last was
      offered, and `broken` says that one has failed for good.  `finAt` is where the stream
      stood when the write half was first shut down. */
  class WriteEnd {
    ghost var written: seq<byte>
    ghost var writes: nat
    ghost var offered: seq<byte>
    ghost var broken: bool
    ghost var fin: bool
    ghost var finAt: nat

    constructor ()
      ensures written == [] && writes == 0 && !broken && !fin
    {
      written, writes, offered, broken, fin := [], 0, [], false, false;
    }

    method Write(bytes: seq<byte>) returns (n: int, wouldBlock: bool)
      modifies this`written, this`writes, this`offered, this`broken
      ensures -1 <= n <= |bytes|
      ensures written == old(written) + if 0 <= n then bytes[..n] else []
      ensures writes == old(writes) + 1 && offered == bytes
      ensures broken == (old(broken) || (n < 0 && !wouldBlock))
    {
      n, wouldBlock := *, *;
      if n < -1 || |bytes| < n {
        n := -1;
      }
      written := written + if 0 <= n then bytes[..n] else [];
      writes, offered, broken := writes + 1, bytes, broken || (n < 0 && !wouldBlock);
    }

    method ShutdownWrite()
      modifies this`fin, this`finAt
      ensures fin && finAt == if old(fin) then old(finAt) else |written|
    {
      finAt := if fin then finAt else |written|;
      fin := true;
    }
  }

  /** The bytes written at once and the bytes queued make up the message. */
  lemma Split(written: seq<byte>, queued: seq<byte>, accepted: seq<byte>, message: seq<byte>, sent: nat)
    requires written + queued == accepted && sent <= |message| && (queued == [] || sent == 0)
    ensures (written + message[..sent]) + (queued + message[sent..]) == accepted + message
  {
    assert message == message[..sent] + message[sent..];
  }

  /** Bytes moved from the front of the queue to the end of what was written. */
  lemma Moved(written: seq<byte>, queued: seq<byte>, n: nat)
    requires n <= |queued|
    ensures (written + queued[..n]) + queued[n..] == written + queued
  {
    assert queued == queued[..n] + queued[n..];
  }

  class Connection {
    const output: Buffer
    const sock: WriteEnd
    const highWaterMark: nat
    var state: State
    var reading: bool  // the read and write interest registered for the channel
    var writing: bool
    ghost var accepted: seq<byte>  // every message taken for sending, in order
    ghost var closeCalls: nat      // how often the close callback has run
    ghost var told: seq<Notice>    // every callback run, in order

    /** Holds whenever user code runs, so in particular between any two operations: no
        failed write goes unnoticed, and `Sound()`. */
    ghost predicate Valid()
      reads this, output, output.data, sock
    {
      Sound() && (sock.broken ==> state == Disconnected)
    }

    ghost predicate Sound()
      reads this, output, output.data, sock
    {
      && output.Valid()
      // conservation: nothing accepted is lost, duplicated or reordered
      && sock.written + output.Contents() == accepted
      // write interest is on exactly while there is something to write
      && (state != Disconnected ==> (writing <==> output.Contents() != []))
      && (state == Disconnected ==> !writing)
      // read interest is on from establishment to the end
      && (reading <==> state in {Connected, Disconnecting})
      // half-close: only an empty buffer is followed by FIN, and no byte follows it
      && (sock.fin ==> state in {Disconnecting, Disconnected})
      && (sock.fin ==> output.Contents() == [] && |sock.written| == sock.finAt)
      && closeCalls <= (if state == Disconnected then 1 else 0)
    }

    /** A requested shutdown has reached the socket unless bytes are still queued. */
    ghost predicate Settled()
      requires output.Valid()
      reads this, output, output.data, sock
    {
      state == Disconnecting && output.Contents() == [] ==> sock.fin
    }

    /** What any stretch of execution may do to a connection. */
    twostate predicate Evolved()
      requires old(Sound()) && Sound()
      reads this, output, output.data, sock
    {
      && old(accepted) <= accepted && old(told) <= told
      && old(sock.written) <= sock.written && old(sock.writes) <= sock.writes
      && (old(sock.broken) ==> sock.broken)
      && (old(sock.fin) ==> sock.fin)
      && (old(state) == Disconnected ==>
            state == Disconnected && closeCalls == old(closeCalls) && unchanged(sock))
      && (old(state) == Disconnecting ==> state in {Disconnecting, Disconnected})
      && (old(state) in {Disconnecting, Disconnected} ==> accepted == old(accepted))
      && (old(state) != Disconnected && state == Disconnected ==> closeCalls == 1)
      && (old(Settled()) ==> Settled())
    }

    /** Nothing but the callbacks run may differ. */
    twostate predicate Still()
      requires old(output.Valid()) && output.Valid()
      reads this, output, output.data, sock
    {
      && state == old(state) && accepted == old(accepted) && closeCalls == old(closeCalls)
      && sock.written == old(sock.written) && sock.writes == old(sock.writes) && sock.offered == old(sock.offered)
      && sock.fin == old(sock.fin) && sock.broken == old(sock.broken)
      && output.Contents() == old(output.Contents())
    }

    constructor (sock: WriteEnd, highWaterMark: nat := 64 * 1024 * 1024)
      requires sock.written == [] && !sock.fin && !sock.broken
      ensures Valid() && fresh(output) && fresh(output.data) && this.sock == sock
      ensures state == Connecting && accepted == [] && told == [] && this.highWaterMark == highWaterMark
    {
      this.sock, this.highWaterMark := sock, highWaterMark;
      output := new Buffer();
      state, reading, writing := Connecting, false, false;
      accepted, closeCalls, told := [], 0, [];
    }

    /** A user callback: it makes any number of calls back into the connection. */
    method UserCallback(depth: nat, notice: Notice)
      requires Valid()
      modifies this, output, output.data, sock
      ensures Valid() && Evolved() && old(told) + [notice] <= told
      ensures output.data == old(output.data) || fresh(output.data)
      ensures depth == 0 ==> Still() && told == old(told) + [notice]
      decreases depth, 0
    {
      told := told + [notice];
      if depth == 0 {
        return;
      }
      var calls: nat := *;
      while 0 < calls
        invariant Valid() && Evolved() && old(told) + [notice] <= told
        invariant output.data == old(output.data) || fresh(output.data)
        decreases calls
      {
        UserCall(depth - 1);
        calls := calls - 1;
      }
    }

    /** Any one call of a user callback. */
    method UserCall(depth: nat)
      requires Valid()
      modifies this, output, output.data, sock
      ensures Valid() && Evolved()
      ensures output.data == old(output.data) || fresh(output.data)
      decreases depth, 4
    {
      var call: int := *;
      if call == 0 {
        var message: seq<byte> := *;
        SendInLoop(message, depth);
      } else if call == 1 {
        ShutdownInLoop();
      } else {
        ForceCloseInLoop(depth);
      }
    }

    method ConnectEstablished(depth: nat)
      requires Valid() && state == Connecting
      modifies this, output, output.data, sock
      ensures Valid() && Evolved() && old(told) + [Up] <= told
      ensures output.data == old(output.data) || fresh(output.data)
      ensures depth == 0 ==>
                && state == Connected && accepted == old(accepted) && told == old(told) + [Up]
                && sock.writes == old(sock.writes) && !sock.fin
      decreases depth, 1
    {
      state, reading := Connected, true;
      UserCallback(depth, Up);
    }

    method ConnectDestroyed()
      requires Valid()
      modifies this
      ensures Valid() && state == Disconnected && accepted == old(accepted)
      ensures closeCalls == old(closeCalls) && told == old(told)
    {
      state, reading, writing := Disconnected, false, false;
    }

    /** A message is taken in full or, after a write that failed for good, not at all; once
        the connection is down or going down, and for an empty message, nothing happens. */
    method SendInLoop(message: seq<byte>, depth: nat)
      requires Valid()
      modifies this, output, output.data, sock
      ensures Valid() && Evolved()
      ensures output.data == old(output.data) || fresh(output.data)
      ensures !old(Takes(message)) ==> Still() && told == old(told)
      ensures old(Takes(message)) ==>
                || old(accepted) + message <= accepted
                || (state == Disconnected && sock.broken && accepted == old(accepted))
      ensures depth == 0 && old(Takes(message)) ==>
                if sock.broken then
                  state == Disconnected && accepted == old(accepted) && told == old(told) + [Down, Closed]
                else
                  state == old(state) && accepted == old(accepted) + message
      // one direct write if nothing is queued, and then none is; none otherwise
      ensures depth == 0 && old(Takes(message)) ==>
                if old(output.Contents()) == [] then sock.writes == old(sock.writes) + 1 && sock.offered == message
                else sock.writes == old(sock.writes) && !sock.broken &&
                     output.Contents() == old(output.Contents()) + message
      ensures depth == 0 && old(Takes(message)) && !sock.broken ==>
                told == old(told) + (if output.Contents() == [] then [WriteComplete] else [])
                                  + (if highWaterMark < |output.Contents()| then [HighWater] else [])
      ensures depth == 0 ==> sock.fin == old(sock.fin)
      decreases depth, 3
    {
      if state in {Disconnected, Disconnecting} || message == [] {
        return;
      }
      var outcome := Offer(message);
      if outcome == Failed {
        HandleClose(depth);       // by way of handleError
      } else {
        Notify(outcome, depth);
      }
    }

    ghost predicate Takes(message: seq<byte>)
      reads this`state
    {
      state in {Connecting, Connected} && message != []
    }

    /** The callbacks after a send: write complete, and high-water mark. */
    method Notify(outcome: Outcome, depth: nat)
      requires Valid() && outcome != Failed && (outcome == AllWritten <==> output.Contents() == [])
      modifies this, output, output.data, sock
      ensures Valid() && Evolved()
      ensures output.data == old(output.data) || fresh(output.data)
      ensures depth == 0 ==>
                && Still()
                && told == old(told) + (if output.Contents() == [] then [WriteComplete] else [])
                                     + (if highWaterMark < |output.Contents()| then [HighWater] else [])
      decreases depth, 1
    {
      if outcome == AllWritten {
        UserCallback(depth, WriteComplete);
      }
      if highWaterMark < output.Readable() {
        UserCallback(depth, HighWater);
      }
    }

    /** Writes directly while nothing is queued, and queues what was not written. */
    method Offer(message: seq<byte>) returns (outcome: Outcome)
      requires Valid() && state in {Connecting, Connected} && message != []
      modifies this`writing, this`accepted, output, output.data
      modifies sock`written, sock`writes, sock`offered, sock`broken
      ensures Sound() && (output.data == old(output.data) || fresh(output.data))
      ensures sock.broken <==> outcome == Failed
      ensures if old(output.Contents()) == [] then sock.writes == old(sock.writes) + 1 && sock.offered == message
              else sock.writes == old(sock.writes) && outcome == Pending &&
                   output.Contents() == old(output.Contents()) + message
      ensures accepted == if outcome == Failed then old(accepted) else old(accepted) + message
      ensures old(sock.written) <= sock.written
      ensures outcome == AllWritten ==> output.Contents() == []
      ensures outcome == Pending ==> output.Contents() != []
    {
      ghost var written, queued, before := sock.written, output.Contents(), accepted;
      var sent := 0;
      if output.Readable() == 0 && !writing {
        var n, wouldBlock := sock.Write(message);
        if n < 0 && !wouldBlock {
          return Failed;
        }
        if n == |message| {
          accepted := accepted + message;
          return AllWritten;
        }
        sent := if n < 0 then 0 else n;
      }
      accepted := accepted + message;
      output.Append(message[sent..]);
      Split(written, queued, before, message, sent);
      assert queued != [] ==> message[sent..] == message;
      assert sock.written == written + message[..sent];
      writing := true;
      return Pending;
    }

    method ShutdownInLoop()
      requires Valid()
      modifies this, sock`fin, sock`finAt
      ensures Valid() && Evolved() && Settled()
      ensures state == if old(state) == Connected then Disconnecting else old(state)
      ensures accepted == old(accepted) && told == old(told) && closeCalls == old(closeCalls)
      ensures sock.fin == (old(sock.fin) || (state == Disconnecting && output.Contents() == []))
    {
      if state in {Disconnected, Connecting} {
        return;
      }
      state := Disconnecting;
      if output.Readable() == 0 && !writing {
        sock.ShutdownWrite();
        return;
      }
      // the source's last branch turns write interest on again; it never was off
      assert writing;
    }

    /** `handleClose`, and `forceCloseInLoop`, which does the same: the connection callback,
        then the close callback, unless the connection is down already. */
    method HandleClose(depth: nat)
      requires Sound()
      modifies this, output, output.data, sock
      ensures Valid() && Evolved()
      ensures output.data == old(output.data) || fresh(output.data)
      ensures state == Disconnected && accepted == old(accepted)
      ensures sock.writes == old(sock.writes) && sock.fin == old(sock.fin)
      ensures old(state) == Disconnected ==> told == old(told)
      ensures old(state) != Disconnected ==>
                old(told) + [Down] <= told && |old(told)| < |told| && told[|told| - 1] == Closed
      ensures depth == 0 && old(state) != Disconnected ==> told == old(told) + [Down, Closed]
      ensures sock.broken == old(sock.broken) && sock.offered == old(sock.offered)
      decreases depth, 1
    {
      if state == Disconnected {
        return;
      }
      state, reading, writing := Disconnected, false, false;
      UserCallback(depth, Down);
      closeCalls, told := closeCalls + 1, told + [Closed];
    }

    method ForceCloseInLoop(depth: nat)
      requires Valid()
      modifies this, output, output.data, sock
      ensures Valid() && Evolved()
      ensures output.data == old(output.data) || fresh(output.data)
      ensures state == Disconnected && accepted == old(accepted)
      ensures sock.writes == old(sock.writes) && sock.fin == old(sock.fin) && sock.broken == old(sock.broken)
      ensures depth == 0 ==> told == old(told) + if old(state) == Disconnected then [] else [Down, Closed]
      decreases depth, 2
    {
      HandleClose(depth);
    }

    /** The socket has become writable.  Afterwards a drained connection whose
        shutdown was asked for has sent its FIN. */
    method HandleWrite(depth: nat)
      requires Valid()
      modifies this, output, output.data, sock
      ensures Valid() && Evolved() && Settled()
      ensures output.data == old(output.data) || fresh(output.data)
      ensures depth == 0 ==> accepted == old(accepted)
      ensures depth == 0 ==> state == old(state) || (state == Disconnected && sock.broken)
      // the whole queue, if there is one, is offered to the socket
      ensures old(HasQueue()) ==> old(sock.writes) < sock.writes
      ensures depth == 0 && old(HasQueue()) ==>
                && sock.writes == old(sock.writes) + 1 && sock.offered == old(output.Contents())
                && told == old(told) + if sock.broken then [Down, Closed]
                                       else if output.Contents() == [] then [WriteComplete] else []
      ensures !old(HasQueue()) ==> sock.writes == old(sock.writes) && told == old(told) && state == old(state)
      ensures depth == 0 ==> sock.fin == (old(sock.fin) || (state == Disconnecting && output.Contents() == []))
      decreases depth, 2
    {
      if state == Disconnected {
        return;
      }
      if output.Readable() == 0 {
        writing := false;
        if state == Disconnecting {
          ShutdownInLoop();
        }
        return;
      }
      var outcome := Flush();
      match outcome {
        case AllWritten => Drained(depth);
        case Failed =>
          HandleClose(depth);     // by way of handleError
        case Pending =>
          writing := true;
      }
    }

    ghost predicate HasQueue()
      reads this`state, output
    {
      state != Disconnected && output.reader < output.writer
    }

    /** The buffer has just been emptied. */
    method Drained(depth: nat)
      requires output.Valid() && output.Contents() == [] && sock.written == accepted
      requires state in {Connecting, Connected, Disconnecting} && !sock.fin && !sock.broken && closeCalls == 0
      requires reading <==> state in {Connected, Disconnecting}
      modifies this, output, output.data, sock
      ensures Valid() && Settled() && (output.data == old(output.data) || fresh(output.data))
      ensures old(accepted) <= accepted && old(sock.written) <= sock.written && old(sock.writes) <= sock.writes
      ensures old(told) + [WriteComplete] <= told
      ensures old(state) == Disconnecting ==> state in {Disconnecting, Disconnected} && accepted == old(accepted)
      ensures state == Disconnected ==> closeCalls == 1
      ensures depth == 0 ==>
                && accepted == old(accepted) && state == old(state) && told == old(told) + [WriteComplete]
                && sock.writes == old(sock.writes) && sock.offered == old(sock.offered) && !sock.broken
                && output.Contents() == [] && (sock.fin <==> state == Disconnecting)
      decreases depth, 1
    {
      writing := false;
      UserCallback(depth, WriteComplete);
      if state == Disconnecting {
        ShutdownInLoop();
      }
    }

    /** One write from the front of the buffer; interest is left to the caller. */
    method Flush() returns (outcome: Outcome)
      requires Valid() && output.Contents() != [] && state != Disconnected
      modifies output`reader, output`writer, sock`written, sock`writes, sock`offered, sock`broken
      ensures sock.writes == old(sock.writes) + 1 && sock.offered == old(output.Contents())
      ensures sock.broken <==> outcome == Failed
      ensures output.Valid() && sock.written + output.Contents() == accepted
      ensures old(sock.written) <= sock.written
      ensures outcome == AllWritten <==> output.Contents() == []
    {
      ghost var written, queued := sock.written, output.Contents();
      var n, wouldBlock := sock.Write(output.Peek(0, output.Readable()));
      if n < 0 {
        return if wouldBlock then Pending else Failed;
      }
      output.Retrieve(n);
      Moved(written, queued, n);
      assert sock.written == written + queued[..n] && output.Contents() == queued[n..];
      return if output.Readable() == 0 then AllWritten else Pending;
    }
  }
}
