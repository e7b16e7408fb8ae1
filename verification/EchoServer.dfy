/** The protocol echo server (`examples/protocol_echo_server`): the decoder, the input
    buffer and the connection put together for one client. */
module EchoServer {
  import opened NetBuffer
  import opened Codec
  import opened TcpConnection

  class Session {
    const conn: Connection
    const input: Buffer
    const source: ReadEnd

    /** Every frame that has arrived in full has been sent back, unless a write has failed,
        and the input buffer keeps exactly the bytes behind the last of them. */
    ghost predicate Valid()
      reads this, conn, conn.output, conn.output.data, conn.sock, input, input.data, source
    {
      && conn.Valid() && input.Valid()
      && conn.output != input && conn.output.data != input.data
      && conn.state != Disconnecting
      && conn.accepted <= source.delivered
      && input.Contents() == Decode(source.delivered).rest
      && (!conn.sock.broken ==> conn.accepted == EncodeAll(Decode(source.delivered).frames))
      && (Decode(source.delivered).fatal ==> conn.state == Disconnected)
    }

    constructor (sock: WriteEnd, source: ReadEnd)
      requires sock.written == [] && !sock.fin && !sock.broken && source.delivered == []
      ensures Valid() && fresh(conn) && conn.sock == sock && this.source == source
      ensures conn.state == Connecting
    {
      var c := new Connection(sock);
      var b := new Buffer();
      conn, input, this.source := c, b, source;
    }

    /** The loop establishes the connection. */
    method Establish()
      requires Valid() && conn.state == Connecting
      modifies conn, conn.output, conn.output.data, conn.sock
      ensures Valid() && conn.state == Connected && conn.reading && conn.accepted == old(conn.accepted)
    {
      conn.ConnectEstablished(0);
    }

    /** The message callback, after `chunk` was appended to what `before` had left over: the
        frames are answered before anything else, and only a header that cannot be trusted or
        a failed write closes the connection. */
    method OnMessage(ghost before: seq<byte>, ghost chunk: seq<byte>)
      requires conn.Valid() && input.Valid() && conn.output != input && conn.output.data != input.data
      requires conn.state in {Connecting, Connected}
      requires source.delivered == before + chunk && !Decode(before).fatal
      requires input.Contents() == Decode(before).rest + chunk
      requires conn.accepted == EncodeAll(Decode(before).frames)
      modifies conn, conn.output, conn.output.data, conn.sock, input`reader, input`writer
      ensures Valid()
      ensures conn.output.data == old(conn.output.data) || fresh(conn.output.data)
      ensures conn.state in {old(conn.state), Disconnected}
      ensures conn.state == Disconnected <==> Decode(source.delivered).fatal || conn.sock.broken
      ensures old(conn.sock.writes) <= conn.sock.writes
      ensures old(conn.HasQueue()) && conn.state != Disconnected ==> conn.HasQueue()
    {
      hide Decode, EncodeAll;
      Received(before, chunk);
      var frames, fatal := TryDecode(input);
      Reply(frames);
      if fatal {
        conn.ForceCloseInLoop(0);
      }
    }

    /** Sends the frames back one by one; a failed write silences the rest. */
    method Reply(frames: seq<Frame>)
      requires conn.Valid() && conn.state in {Connecting, Connected}
      modifies conn, conn.output, conn.output.data, conn.sock
      ensures conn.Valid() && conn.state in {old(conn.state), Disconnected}
      ensures conn.output.data == old(conn.output.data) || fresh(conn.output.data)
      ensures conn.accepted <= old(conn.accepted) + EncodeAll(frames)
      ensures !conn.sock.broken ==> conn.accepted == old(conn.accepted) + EncodeAll(frames)
      ensures conn.state == Disconnected <==> conn.sock.broken
      ensures old(conn.sock.writes) <= conn.sock.writes
      ensures old(conn.HasQueue()) && conn.state != Disconnected ==> conn.HasQueue()
    {
      hide Decode, Encode, EncodeAll, Connection.Sound, Connection.Settled;
      assert EncodeAll(frames[..0]) == [] by {
        EncodeNone();
        assert frames[..0] == [];
      }
      for i := 0 to |frames|
        invariant conn.Valid() && conn.state in {old(conn.state), Disconnected}
        invariant conn.output.data == old(conn.output.data) || fresh(conn.output.data)
        invariant conn.accepted <= old(conn.accepted) + EncodeAll(frames)
        invariant !conn.sock.broken ==> conn.accepted == old(conn.accepted) + EncodeAll(frames[..i])
        invariant conn.state == Disconnected <==> conn.sock.broken
        invariant old(conn.sock.writes) <= conn.sock.writes
        invariant old(conn.HasQueue()) && conn.state != Disconnected ==> conn.HasQueue()
      {
        EncodeNext(frames, i);
        conn.SendInLoop(Encode(frames[i]), 0);
      }
      assert frames[..|frames|] == frames;
    }

    /** The socket is readable: any amount of input, end of file, or an error. */
    method HandleRead()
      requires Valid()
      modifies conn, conn.output, conn.output.data, conn.sock, input, input.data, source
      ensures Valid()
      ensures conn.output.data == old(conn.output.data) || fresh(conn.output.data)
      ensures input.data == old(input.data) || fresh(input.data)
      ensures old(source.delivered) <= source.delivered
      ensures conn.state == old(conn.state) || conn.state == Disconnected
      ensures source.calls > old(source.calls) <==> old(conn.state) != Disconnected
      // without data, the connection closes unless the read would merely have blocked
      ensures old(conn.state) != Disconnected && source.delivered == old(source.delivered) ==>
                (conn.state == Disconnected <==> source.last != Error(true))
      // with data, unless it holds a header that cannot be trusted, or answering it fails
      ensures old(source.delivered) < source.delivered ==>
                (conn.state == Disconnected <==> Decode(source.delivered).fatal || conn.sock.broken)
      ensures old(conn.sock.writes) <= conn.sock.writes
      ensures old(conn.HasQueue()) && conn.state != Disconnected ==> conn.HasQueue()
    {
      hide Decode, EncodeAll, Connection.Settled;
      if conn.state == Disconnected {
        return;
      }
      ghost var before := source.delivered;
      var n, wouldBlock := input.ReadFd(source);
      ghost var chunk := source.delivered[|before|..];
      if 0 < n {
        OnMessage(before, chunk);
      } else {
        assert chunk == [] && source.delivered == before;
        if n == 0 || !wouldBlock {
          conn.HandleClose(0);
        }
      }
    }

    method HandleWrite()
      requires Valid()
      modifies conn, conn.output, conn.output.data, conn.sock
      ensures Valid() && conn.accepted == old(conn.accepted)
      ensures conn.output.data == old(conn.output.data) || fresh(conn.output.data)
      ensures conn.state == old(conn.state) || (conn.state == Disconnected && conn.sock.broken)
      ensures old(conn.HasQueue()) ==>
                conn.sock.writes == old(conn.sock.writes) + 1 && conn.sock.offered == old(conn.output.Contents())
      ensures !old(conn.HasQueue()) ==> conn.sock.writes == old(conn.sock.writes)
      ensures old(conn.sock.broken) ==> conn.sock.broken
    {
      conn.HandleWrite(0);
    }

    /** The channel's error and hang-up callbacks. */
    method HandleClose()
      requires Valid()
      modifies conn, conn.output, conn.output.data, conn.sock
      ensures Valid() && conn.state == Disconnected && conn.accepted == old(conn.accepted)
      ensures conn.output.data == old(conn.output.data) || fresh(conn.output.data)
      ensures conn.sock.writes == old(conn.sock.writes) && conn.sock.offered == old(conn.sock.offered)
      ensures conn.sock.broken == old(conn.sock.broken)
    {
      conn.HandleClose(0);
    }

    /** The read and the write callback, as far as they are called for: a readable socket is
        read, and a writable one is offered what is queued.  Only the end of the input, an
        untrustworthy header or a failing call ends the connection. */
    method Serve(readable: bool, writable: bool)
      requires Valid()
      modifies conn, conn.output, conn.output.data, conn.sock, input, input.data, source
      ensures Valid() && old(source.delivered) <= source.delivered
      ensures conn.output.data == old(conn.output.data) || fresh(conn.output.data)
      ensures input.data == old(input.data) || fresh(input.data)
      ensures conn.state == old(conn.state) || conn.state == Disconnected
      ensures source.calls > old(source.calls) <==> readable && old(conn.state) != Disconnected
      ensures writable && old(conn.HasQueue()) && conn.state != Disconnected ==>
                old(conn.sock.writes) < conn.sock.writes
      ensures writable && old(conn.HasQueue()) && !readable ==> conn.sock.offered == old(conn.output.Contents())
      ensures old(conn.state) != Disconnected && conn.state == Disconnected ==>
                || Decode(source.delivered).fatal || conn.sock.broken
                || (readable && source.delivered == old(source.delivered) && source.last != Error(true))
    {
      hide Session.Valid;
      if readable {
        HandleRead();
      }
      if writable {
        HandleWrite();
      }
    }

    /** One report of the poller, with the callbacks in the channel's order: the session's law
        survives every combination, an error or a hang-up ends the connection, a readable
        socket is read and a writable one is offered what is queued.  Apart from an error or a
        hang-up, only the end of the input, an untrustworthy header or a failing call ends it. */
    method HandleEvent(readable: bool, writable: bool, error: bool, hangup: bool)
      requires Valid()
      modifies conn, conn.output, conn.output.data, conn.sock, input, input.data, source
      ensures Valid() && old(source.delivered) <= source.delivered
      ensures conn.state == old(conn.state) || conn.state == Disconnected
      ensures error || hangup ==> conn.state == Disconnected
      ensures source.calls > old(source.calls) <==> readable && old(conn.state) != Disconnected
      ensures writable && old(conn.HasQueue()) && conn.state != Disconnected ==>
                old(conn.sock.writes) < conn.sock.writes
      ensures writable && old(conn.HasQueue()) && !readable ==> conn.sock.offered == old(conn.output.Contents())
      ensures old(conn.state) != Disconnected && conn.state == Disconnected && !error && !hangup ==>
                || Decode(source.delivered).fatal || conn.sock.broken
                || (readable && source.delivered == old(source.delivered) && source.last != Error(true))
    {
      hide Session.Valid;
      Serve(readable, writable);
      if error {
        HandleClose();
      }
      if hangup {
        HandleClose();
      }
    }

    /** End to end: unless a write failed or a header could not be trusted, so in particular
        as long as the connection is up, what the kernel took, what waits in the output buffer
        and what waits for the rest of its frame are, in this order, exactly the bytes
        received; no complete frame is waiting. */
    lemma NothingLost()
      requires Valid() && !conn.sock.broken && !Decode(source.delivered).fatal
      ensures conn.sock.written + conn.output.Contents() + input.Contents() == source.delivered
      ensures Decode(input.Contents()) == Decoded([], input.Contents(), false)
      ensures |input.Contents()| < HEADER_SIZE + MAX_BODY_SIZE
    {
      DecodeIsExact(source.delivered);
      LeftoverIsStuck(source.delivered);
    }

    /** Even after a failure, whatever the client got back is a prefix of what it sent. */
    lemma EchoesAPrefix()
      requires Valid()
      ensures conn.sock.written <= source.delivered
    {
      assert conn.sock.written <= conn.accepted;
    }
  }

  /** What a chunk adds to the frames found so far. */
  lemma Received(before: seq<byte>, chunk: seq<byte>)
    requires !Decode(before).fatal
    ensures var d := Decode(Decode(before).rest + chunk); var all := Decode(before + chunk);
            && all.fatal == d.fatal && all.rest == d.rest
            && EncodeAll(all.frames) == EncodeAll(Decode(before).frames) + EncodeAll(d.frames)
            && EncodeAll(all.frames) <= before + chunk
  {
    DecodeAppend(before, chunk);
    DecodeIsExact(before + chunk);
    EncodeAllConcat(Decode(before).frames, Decode(Decode(before).rest + chunk).frames);
  }

  lemma EncodeNone()
    ensures EncodeAll([]) == []
  {
  }

  lemma {:induction false} EncodeNext(frames: seq<Frame>, i: nat)
    requires i < |frames|
    ensures EncodeAll(frames[..i + 1]) == EncodeAll(frames[..i]) + Encode(frames[i])
    ensures EncodeAll(frames[..i + 1]) <= EncodeAll(frames)
  {
    hide Encode, EncodeAll;
    EncodeNone();
    EncodeOneMore(frames[i], []);
    assert frames[..i + 1] == frames[..i] + ([frames[i]] + []);
    EncodeAllConcat(frames[..i], [frames[i]] + []);
    assert frames[..i + 1] + frames[i + 1..] == frames;
    EncodeAllConcat(frames[..i + 1], frames[i + 1..]);
  }

  lemma {:induction false} EncodeAllConcat(a: seq<Frame>, b: seq<Frame>)
    ensures EncodeAll(a + b) == EncodeAll(a) + EncodeAll(b)
  {
    hide Encode;
    if a == [] {
      assert a + b == b;
    } else {
      assert (a + b)[1..] == a[1..] + b;
      EncodeAllConcat(a[1..], b);
    }
  }
}
