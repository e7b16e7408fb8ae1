/** Growable byte buffer of the reactor (`net/Buffer`): one array cut by two
    indices into a consumed front, a readable middle and a writable tail.  Seen
    from outside it is a plain byte queue, `Contents()`. */
module NetBuffer {

  newtype byte = x: int | 0 <= x < 256

  const CHEAP_PREPEND: nat := 8
  const INITIAL_SIZE: nat := 1024
  const EXTRA_SIZE: nat := 65536

  /** What one `read` system call reports. */
  datatype ReadResult = Data(bytes: seq<byte>) | Error(wouldBlock: bool)

  /** The reading side of a socket.  `delivered` is every byte the kernel has handed
      out so far, in so many `calls`; each call may deliver any number of bytes up to the
      capacity, report end of file (no bytes), or fail.  `asked` is the latest capacity and
      `last` the latest answer. */
  class ReadEnd {
    ghost var delivered: seq<byte>
    ghost var calls: nat
    ghost var asked: nat
    ghost var last: ReadResult

    constructor ()
      ensures delivered == [] && calls == 0
    {
      delivered, calls, asked, last := [], 0, 0, Data([]);
    }

    method Read(capacity: nat) returns (r: ReadResult)
      modifies this
      ensures calls == old(calls) + 1 && asked == capacity && last == r
      ensures r.Data? ==> |r.bytes| <= capacity && delivered == old(delivered) + r.bytes
      ensures r.Error? ==> delivered == old(delivered)
    {
      r := *;
      if r.Data? && capacity < |r.bytes| {
        r := Data(r.bytes[..capacity]);
      }
      delivered := delivered + if r.Data? then r.bytes else [];
      calls, asked, last := calls + 1, capacity, r;
    }
  }

  class Buffer {
    var data: array<byte>
    var reader: nat
    var writer: nat

    ghost predicate Valid()
      reads this
    {
      CHEAP_PREPEND <= reader <= writer <= data.Length
    }

    ghost function Contents(): (s: seq<byte>)
      requires Valid()
      reads this, data
      ensures |s| == writer - reader
    {
      data[reader..writer]
    }

    constructor (initialSize: nat := INITIAL_SIZE)
      ensures Valid() && fresh(data) && Contents() == [] && reader == 8
      ensures Writable() == initialSize
    {
      data := new byte[CHEAP_PREPEND + initialSize];
      reader, writer := CHEAP_PREPEND, CHEAP_PREPEND;
    }

    function Readable(): (n: nat)
      requires Valid()
      reads this, data
      ensures n == |Contents()|
    {
      writer - reader
    }

    function Writable(): nat
      requires Valid()
      reads this
    {
      data.Length - writer
    }

    /** The `len` bytes found `at` places behind `peek()`. */
    function Peek(at: nat, len: nat): (s: seq<byte>)
      requires Valid() && at + len <= Readable()
      reads this, data
      ensures s == Contents()[at..at + len]
    {
      data[reader..writer][at..at + len]
    }

    method RetrieveAll()
      requires Valid()
      modifies this`reader, this`writer
      ensures Valid() && Contents() == [] && reader == CHEAP_PREPEND
    {
      reader, writer := CHEAP_PREPEND, CHEAP_PREPEND;
    }

    /** Asking for more than there is empties the buffer. */
    method Retrieve(len: nat)
      requires Valid()
      modifies this`reader, this`writer
      ensures Valid()
      ensures Contents() == if len <= |old(Contents())| then old(Contents())[len..] else []
      ensures Contents() == [] ==> reader == CHEAP_PREPEND
    {
      if len < Readable() {
        reader := reader + len;
      } else {
        RetrieveAll();
      }
    }

    /** The length is not checked: asking for more than there is gives all there is followed
        by stale bytes of the storage, and asking past the storage is undefined. */
    method RetrieveAsString(len: nat) returns (result: seq<byte>)
      requires Valid() && reader + len <= data.Length
      modifies this`reader, this`writer
      ensures Valid() && |result| == len
      ensures if len <= |old(Contents())| then old(Contents()) == result + Contents()
              else Contents() == [] && old(Contents()) < result
    {
      result := data[reader..reader + len];
      assert len <= Readable() || result[..Readable()] == Contents();
      Retrieve(len);
    }

    /** Afterwards `len` bytes fit behind the contents, which have not changed; if they
        did before, nothing is moved. */
    method EnsureWritableBytes(len: nat)
      requires Valid()
      modifies this, data
      ensures Valid() && Contents() == old(Contents()) && len <= Writable()
      ensures data == old(data) || fresh(data)
      ensures len <= old(Writable()) ==> data == old(data) && reader == old(reader)
    {
      if Writable() < len {
        MakeSpace(len);
      }
    }

    /** Grows the array, or slides the contents to the front.  The slide overlaps
        itself; it is sound because its target lies strictly to the left. */
    method MakeSpace(len: nat)
      requires Valid() && Writable() < len
      modifies this, data
      ensures Valid() && Contents() == old(Contents()) && len <= Writable()
      ensures data == old(data) || fresh(data)
      ensures if old(Writable() + reader) < len + CHEAP_PREPEND
              then fresh(data) && reader == old(reader) && Writable() == len
              else data == old(data) && reader == CHEAP_PREPEND
    {
      if Writable() + reader < len + CHEAP_PREPEND {
        Resize(writer + len);
      } else {
        SlideToFront();
      }
    }

    method Resize(size: nat)
      requires Valid() && data.Length <= size
      modifies this`data
      ensures Valid() && Contents() == old(Contents()) && fresh(data) && data.Length == size
    {
      var grown := new byte[size];
      var i := 0;
      while i < writer
        modifies grown
        invariant i <= writer
        invariant grown[..i] == data[..i]
      {
        grown[i] := data[i];
        i := i + 1;
      }
      assert grown[reader..writer] == grown[..writer][reader..];
      data := grown;
    }

    method SlideToFront()
      requires Valid() && CHEAP_PREPEND < reader
      modifies this`reader, this`writer, data
      ensures Valid() && Contents() == old(Contents()) && reader == CHEAP_PREPEND
    {
      ghost var before := Contents();
      var readable := Readable();
      var i := 0;
      while i < readable
        modifies data
        invariant i <= readable
        invariant forall k :: CHEAP_PREPEND <= k < CHEAP_PREPEND + i ==> data[k] == before[k - CHEAP_PREPEND]
        invariant forall k :: reader + i <= k < writer ==> data[k] == before[k - reader]
      {
        data[CHEAP_PREPEND + i] := data[reader + i];
        i := i + 1;
      }
      reader, writer := CHEAP_PREPEND, CHEAP_PREPEND + readable;
    }

    method Append(bytes: seq<byte>)
      requires Valid()
      modifies this, data
      ensures Valid() && Contents() == old(Contents()) + bytes
      ensures data == old(data) || fresh(data)
    {
      EnsureWritableBytes(|bytes|);
      Fill(bytes);
    }

    /** The copy to `beginWrite()` together with `refreshWrite`. */
    method Fill(bytes: seq<byte>)
      requires Valid() && |bytes| <= Writable()
      modifies this`writer, data
      ensures Valid() && Contents() == old(Contents()) + bytes
    {
      var i := 0;
      while i < |bytes|
        modifies data
        invariant i <= |bytes|
        invariant forall k :: reader <= k < writer ==> data[k] == old(data[k])
        invariant forall k :: writer <= k < writer + i ==> data[k] == bytes[k - writer]
      {
        data[writer + i] := bytes[i];
        i := i + 1;
      }
      writer := writer + |bytes|;
      assert data[reader..writer] ==
             data[reader..writer - |bytes|] + data[writer - |bytes|..writer];
    }

    /** Reads into the writable tail and, only when that was filled, once more through
        a spill area.  Exactly the delivered bytes end up at the back; a failure is
        reported only when nothing was delivered, and 0 only for end of file. */
    method ReadFd(fd: ReadEnd) returns (n: int, wouldBlock: bool)
      requires Valid()
      modifies this, data, fd
      ensures Valid() && (data == old(data) || fresh(data))
      ensures old(fd.delivered) <= fd.delivered
      ensures Contents() == old(Contents()) + fd.delivered[|old(fd.delivered)|..]
      ensures n == |fd.delivered| - |old(fd.delivered)| || (n == -1 && fd.delivered == old(fd.delivered))
      ensures n <= 0 ==> fd.last == if n == 0 then Data([]) else Error(wouldBlock)
      ensures fd.calls == old(fd.calls) + if 0 < old(Writable()) <= n then 2 else 1
      ensures fd.asked == if old(Writable()) == 0 || old(Writable()) <= n then EXTRA_SIZE else old(Writable())
    {
      n, wouldBlock := 0, false;
      var writable := Writable();
      if 0 < writable {
        var first := fd.Read(writable);
        match first {
          case Error(again) => return -1, again;
          case Data(bytes) =>
            n := |bytes|;
            Fill(bytes);
            if n < writable {
              return;
            }
        }
      }
      ghost var midway := fd.delivered;
      var second := fd.Read(EXTRA_SIZE);
      match second {
        case Error(again) =>
          return if 0 < n then n else -1, again;
        case Data(bytes) =>
          assert fd.delivered[|old(fd.delivered)|..] == midway[|old(fd.delivered)|..] + bytes;
          Append(bytes);
          n := n + |bytes|;
      }
    }
  }
}
