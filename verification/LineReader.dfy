/** Reading by lines (`wrap.c`): `my_read` hands out single bytes from a carry buffer that
    it refills by large reads, and `Readline` cuts the stream into lines. */
module LineReader {
  import opened NetBuffer

  const READ_BUF_SIZE := 4096
  const NEWLINE: byte := 10

  datatype ByteResult = Byte(c: byte) | EndOfFile | Failed
  datatype Stop = Full | Newline | StreamEnd | Failure

  // ---- what a line is, whatever way the bytes arrive ----

  /** The next line of a stream: up to and including a newline, but at most `maxlen - 1` bytes. */
  function Line(s: seq<byte>, maxlen: nat): (r: seq<byte>)
    ensures r <= s
    ensures maxlen <= |r| + 1 || maxlen == 0 ==> |r| == if maxlen == 0 then 0 else maxlen - 1
  {
    if maxlen <= 1 || s == [] then []
    else if s[0] == NEWLINE then s[..1]
    else [s[0]] + Line(s[1..], maxlen - 1)
  }

  predicate Complete(line: seq<byte>, maxlen: nat) {
    maxlen <= |line| + 1 || (line != [] && line[|line| - 1] == NEWLINE)
  }

  /** What makes it the line: the only newline is the last byte, it fits, and it stops short
      of the end of the stream only for a newline or for want of room. */
  lemma {:induction false} LineIsTheLine(s: seq<byte>, maxlen: nat)
    ensures var r := Line(s, maxlen);
            && r <= s && (|r| < maxlen || r == [])
            && (r != [] ==> NEWLINE !in r[..|r| - 1])
            && (r == s || |r| + 1 == maxlen || (r != [] && r[|r| - 1] == NEWLINE) || maxlen == 0)
  {
    if 1 < maxlen && s != [] && s[0] != NEWLINE {
      LineIsTheLine(s[1..], maxlen - 1);
    }
  }

  lemma LineStep(c: byte, rest: seq<byte>, maxlen: nat)
    requires 1 < maxlen
    ensures Line([c] + rest, maxlen) == [c] + if c == NEWLINE then [] else Line(rest, maxlen - 1)
  {
    assert ([c] + rest)[1..] == rest && ([c] + rest)[..1] == [c];
  }

  /** Bytes that hold no newline and do not fill the line are its beginning. */
  lemma {:induction false} LineGoesOn(p: seq<byte>, s: seq<byte>, maxlen: nat)
    requires NEWLINE !in p && |p| < maxlen
    ensures Line(p + s, maxlen) == p + Line(s, maxlen - |p|)
  {
    hide Line;
    if p == [] {
      assert p + s == s;
    } else {
      var (c, rest) := (p[0], p[1..]);
      LineGoesOn(rest, s, maxlen - 1);
      assert c != NEWLINE && p + s == [c] + (rest + s);
      LineStep(c, rest + s, maxlen);
      assert [c] + (rest + Line(s, maxlen - |p|)) == p + Line(s, maxlen - |p|);
    }
  }

  lemma CompleteTail(c: byte, rest: seq<byte>, maxlen: nat)
    requires Complete([c] + rest, maxlen) && c != NEWLINE && 1 < maxlen
    ensures Complete(rest, maxlen - 1)
  {
    assert rest != [] ==> ([c] + rest)[|rest|] == rest[|rest| - 1];
  }

  lemma NoLine(s: seq<byte>, maxlen: nat)
    ensures maxlen <= 1 ==> Line(s, maxlen) == []
    ensures s == [] && 1 < maxlen ==> !Complete(Line(s, maxlen), maxlen)
  {
  }

  /** A complete line does not depend on what arrives after it. */
  lemma {:induction false} CompleteLineIsFinal(s: seq<byte>, t: seq<byte>, maxlen: nat)
    requires Complete(Line(s, maxlen), maxlen)
    ensures Line(s + t, maxlen) == Line(s, maxlen)
  {
    hide Line, Complete;
    NoLine(s, maxlen);
    NoLine(s + t, maxlen);
    if 1 < maxlen && s != [] {
      var (c, rest) := (s[0], s[1..]);
      assert s == [c] + rest && s + t == [c] + (rest + t);
      LineStep(c, rest, maxlen);
      LineStep(c, rest + t, maxlen);
      if c != NEWLINE {
        CompleteTail(c, Line(rest, maxlen - 1), maxlen);
        CompleteLineIsFinal(rest, t, maxlen - 1);
      }
    }
  }

  /** The lines that repeated calls return, up to the end of the stream. */
  function Lines(s: seq<byte>, maxlen: nat): seq<seq<byte>>
    requires 2 <= maxlen
    decreases |s|
  {
    if s == [] then [] else [Line(s, maxlen)] + Lines(s[|Line(s, maxlen)|..], maxlen)
  }

  function Join(lines: seq<seq<byte>>): seq<byte> {
    if lines == [] then [] else lines[0] + Join(lines[1..])
  }

  /** Cutting a stream into lines loses nothing, and only the last may be incomplete. */
  lemma {:induction false} LinesJoinToTheStream(s: seq<byte>, maxlen: nat)
    requires 2 <= maxlen
    ensures Join(Lines(s, maxlen)) == s
    ensures forall i :: 0 <= i < |Lines(s, maxlen)| - 1 ==> Complete(Lines(s, maxlen)[i], maxlen)
    decreases |s|
  {
    if s != [] {
      var l := Line(s, maxlen);
      var rest := s[|l|..];
      LinesJoinToTheStream(rest, maxlen);
      assert Lines(s, maxlen)[1..] == Lines(rest, maxlen);
      if rest != [] {
        IncompleteLineIsLast(s, maxlen);
      }
    }
  }

  lemma {:induction false} IncompleteLineIsLast(s: seq<byte>, maxlen: nat)
    ensures Complete(Line(s, maxlen), maxlen) || Line(s, maxlen) == s
  {
    if 1 < maxlen && s != [] && s[0] != NEWLINE {
      IncompleteLineIsLast(s[1..], maxlen - 1);
    }
  }

  /** Complete lines, cut off a stream one after the other, and what is left of it. */
  predicate CutsInto(s: seq<byte>, lines: seq<seq<byte>>, rest: seq<byte>, maxlen: nat)
    decreases |lines|
  {
    if lines == [] then s == rest
    else
      && lines[0] == Line(s, maxlen) && Complete(lines[0], maxlen)
      && CutsInto(s[|lines[0]|..], lines[1..], rest, maxlen)
  }

  lemma {:induction false} CutGrows(s: seq<byte>, lines: seq<seq<byte>>, rest: seq<byte>, maxlen: nat, more: seq<byte>)
    requires CutsInto(s, lines, rest, maxlen)
    ensures CutsInto(s + more, lines, rest + more, maxlen)
    decreases |lines|
  {
    hide Line;
    if lines != [] {
      CompleteLineIsFinal(s, more, maxlen);
      assert (s + more)[|lines[0]|..] == s[|lines[0]|..] + more;
      CutGrows(s[|lines[0]|..], lines[1..], rest, maxlen, more);
    }
  }

  lemma {:induction false} CutAgain(s: seq<byte>, lines: seq<seq<byte>>, rest: seq<byte>, maxlen: nat)
    requires CutsInto(s, lines, rest, maxlen) && Complete(Line(rest, maxlen), maxlen)
    ensures CutsInto(s, lines + [Line(rest, maxlen)], rest[|Line(rest, maxlen)|..], maxlen)
    decreases |lines|
  {
    hide Line;
    var l := Line(rest, maxlen);
    if lines == [] {
      assert lines + [l] == [l] && [l][1..] == [];
      assert CutsInto(s[|l|..], [], rest[|l|..], maxlen);
    } else {
      CutAgain(s[|lines[0]|..], lines[1..], rest, maxlen);
      assert (lines + [l])[1..] == lines[1..] + [l];
    }
  }

  /** The lines cut off are the first lines of the stream. */
  lemma {:induction false} CutsAreLines(s: seq<byte>, lines: seq<seq<byte>>, rest: seq<byte>, maxlen: nat)
    requires 2 <= maxlen && CutsInto(s, lines, rest, maxlen)
    ensures Lines(s, maxlen) == lines + Lines(rest, maxlen)
    decreases |lines|
  {
    hide Line;
    if lines == [] {
      assert [] + Lines(rest, maxlen) == Lines(rest, maxlen);
    } else {
      var tail := s[|lines[0]|..];
      CutsAreLines(tail, lines[1..], rest, maxlen);
      assert lines == [lines[0]] + lines[1..];
      assert Lines(s, maxlen) == [lines[0]] + Lines(tail, maxlen);
    }
  }

  lemma MoreToCut(before: seq<byte>, news: seq<byte>, lines: seq<seq<byte>>, rest: seq<byte>,
                  maxlen: nat, more: seq<byte>)
    requires CutsInto(before + news, lines, rest, maxlen)
    ensures CutsInto(before + (news + more), lines, rest + more, maxlen)
  {
    CutGrows(before + news, lines, rest, maxlen, more);
    assert before + (news + more) == (before + news) + more;
  }

  lemma NothingCut(s: seq<byte>, maxlen: nat)
    ensures CutsInto(s + [], [], s, maxlen)
  {
    assert s + [] == s;
  }

  lemma OnlyLine(s: seq<byte>, maxlen: nat)
    requires 2 <= maxlen && Line(s, maxlen) == s
    ensures Lines(s, maxlen) == if s == [] then [] else [s]
    ensures Lines([], maxlen) == []
  {
    hide Line;
    if s != [] {
      assert s[|s|..] == [];
      assert Lines(s, maxlen) == [s] + Lines([], maxlen);
    }
  }

  predicate EndsInNewline(p: seq<byte>) {
    p != [] && p[|p| - 1] == NEWLINE && NEWLINE !in p[..|p| - 1]
  }

  lemma LineEndsWithNewline(p: seq<byte>, s: seq<byte>, maxlen: nat)
    requires EndsInNewline(p) && |p| < maxlen
    ensures Line(p + s, maxlen) == p
  {
    var q := p[..|p| - 1];
    LineGoesOn(q, [NEWLINE] + s, maxlen);
    assert p + s == q + ([NEWLINE] + s);
  }

  lemma LineIsFull(p: seq<byte>, s: seq<byte>, maxlen: nat)
    requires NEWLINE !in p && (|p| + 1 == maxlen || (p == [] && maxlen == 0))
    ensures Line(p + s, maxlen) == p
  {
    if maxlen != 0 {
      LineGoesOn(p, s, maxlen);
    }
  }

  lemma LineEndsWithStream(p: seq<byte>, maxlen: nat)
    requires NEWLINE !in p && |p| < maxlen
    ensures Line(p + [], maxlen) == p
  {
    LineGoesOn(p, [], maxlen);
  }

  lemma Extended(before: seq<byte>, news: seq<byte>, taken: seq<byte>, carried: seq<byte>, more: seq<byte>)
    requires before + news == taken + carried
    ensures before + (news + more) == taken + (carried + more)
    ensures before + (news + more) == (before + news) + more
  {
    assert before + (news + more) == (before + news) + more;
  }

  /** How many bytes of a line of `n` were carried over. */
  function Carried(n: nat, carry: seq<byte>): nat {
    if n < |carry| then n else |carry|
  }

  /** The line is what was carried, as far as it fits, and then new bytes. */
  predicate StartsWithCarry(line: seq<byte>, carry: seq<byte>, news: seq<byte>) {
    var k := Carried(|line|, carry);
    |line| - k <= |news| && line == carry[..k] + news[..|line| - k]
  }

  lemma CarryComesFirst(carry: seq<byte>, news: seq<byte>, line: seq<byte>, rest: seq<byte>)
    requires carry + news == line + rest
    ensures StartsWithCarry(line, carry, news)
  {
    assert line == (carry + news)[..|line|];
  }

  /** So a byte that one descriptor left over begins the line read from another: after "x"
      was left, "y" and a newline make the line "xy". */
  lemma MixedLine()
    ensures var carry, news: seq<byte> := [120], [121, 10];
            Line(carry + news, 80) == [120, 121, 10] && Carried(3, carry) == 1 && Complete([120, 121, 10], 80)
  {
    var x, y: byte := 120, 121;
    LineEndsWithNewline([x, y, NEWLINE], [], 80);
    assert [x] + [y, NEWLINE] == [x, y, NEWLINE] + [];
  }

  /** What the bytes gathered are, by what stopped the loop. */
  lemma Gathered(all: seq<byte>, taken: seq<byte>, rest: seq<byte>, stop: Stop, maxlen: nat)
    requires all == taken + rest && (|taken| < maxlen || taken == [])
    requires stop == Full ==> NEWLINE !in taken && maxlen <= |taken| + 1
    requires stop == Newline ==> EndsInNewline(taken)
    requires stop in {StreamEnd, Failure} ==> NEWLINE !in taken && |taken| + 1 < maxlen && rest == []
    ensures Line(all, maxlen) == taken
    ensures Complete(taken, maxlen) <==> stop in {Full, Newline}
    ensures 2 <= maxlen && taken == [] ==> all == []
  {
    hide Line;
    match stop
    case Full => LineIsFull(taken, rest, maxlen);
    case Newline => LineEndsWithNewline(taken, rest, maxlen);
    case _ => LineEndsWithStream(taken, maxlen);
  }

  // ---- the reader of one thread ----

  class Reader {
    const buf: array<byte>
    var cnt: nat  // read_cnt
    var next: nat // read_ptr, as an index
    ghost var origin: ReadEnd?  // the descriptor that filled the buffer last

    ghost predicate Valid()
      reads this
    {
      0 < buf.Length && next + cnt <= buf.Length
    }

    /** Bytes read from the kernel and not handed out yet. */
    ghost function Carry(): seq<byte>
      requires Valid()
      reads this, buf
    {
      buf[next..next + cnt]
    }

    constructor ()
      ensures Valid() && fresh(buf) && buf.Length == READ_BUF_SIZE && Carry() == []
    {
      buf := new byte[READ_BUF_SIZE];
      cnt, next, origin := 0, 0, null;
    }

    /** The refill in `my_read`; a read interrupted by a signal is repeated there, so it
        shows up here as the read that was not. */
    method Refill(fd: ReadEnd) returns (got: ReadResult)
      requires Valid() && cnt == 0
      modifies this, buf, fd
      ensures Valid() && fd.delivered == old(fd.delivered) + Carry()
      ensures Carry() == if got.Data? then got.bytes else []
      ensures fd.calls == old(fd.calls) + 1 && fd.asked == buf.Length && fd.last == got
      ensures origin == if Carry() != [] then fd else old(origin)
    {
      got := fd.Read(buf.Length);
      if got.Data? {
        origin := if got.bytes != [] then fd else origin;
        forall i | 0 <= i < |got.bytes| {
          buf[i] := got.bytes[i];
        }
        cnt, next := |got.bytes|, 0;
        assert Carry() == got.bytes;
      }
    }

    method Pop() returns (c: byte)
      requires Valid() && 0 < cnt
      modifies this`cnt, this`next
      ensures Valid() && old(Carry()) == [c] + Carry()
    {
      c := buf[next];
      cnt, next := cnt - 1, next + 1;
    }

    /** `my_read`.  It reads exactly when the carry is empty, and reports what the kernel
        answered. */
    method ReadByte(fd: ReadEnd) returns (r: ByteResult, ghost news: seq<byte>)
      requires Valid()
      modifies this, buf, fd
      ensures Valid() && fd.delivered == old(fd.delivered) + news
      ensures r.Byte? ==> old(Carry()) + news == [r.c] + Carry()
      ensures !r.Byte? ==> old(Carry()) == [] && news == [] && Carry() == []
      ensures fd.calls == old(fd.calls) + if old(Carry()) == [] then 1 else 0
      ensures old(Carry()) != [] ==> r.Byte? && fd.last == old(fd.last)
      ensures old(Carry()) == [] ==> (r.Failed? <==> fd.last.Error?) && (r.EndOfFile? <==> fd.last == Data([]))
      ensures origin == if news != [] then fd else old(origin)
    {
      news := [];
      if cnt == 0 {
        var got := Refill(fd);
        news := Carry();
        if cnt == 0 {
          return if got.Error? then Failed else EndOfFile, news;
        }
      }
      var c := Pop();
      return Byte(c), news;
    }

    /** The last read of this call found the end of the stream. */
    twostate predicate ReadEnded(fd: ReadEnd)
      reads fd
    {
      old(fd.calls) < fd.calls && fd.last == Data([])
    }

    /** The last read of this call failed. */
    twostate predicate ReadFailed(fd: ReadEnd)
      reads fd
    {
      old(fd.calls) < fd.calls && fd.last.Error?
    }

    /** One turn of that loop: `stream` is all there was so far, and `taken` what the line
        has of it. */
    method Pull(fd: ReadEnd, line: array<byte>, n: nat, ghost stream: seq<byte>, ghost taken: seq<byte>)
      returns (r: ByteResult, ghost more: seq<byte>)
      requires Valid() && n < line.Length && line != buf
      requires line[..n] == taken && stream == taken + Carry()
      modifies this, buf, fd, line
      ensures Valid() && fd.delivered == old(fd.delivered) + more
      ensures line[..n] == taken && (r.Byte? ==> line[n] == r.c)
      ensures stream + more == taken + (if r.Byte? then [r.c] else []) + Carry()
      ensures !r.Byte? ==> Carry() == []
      ensures old(fd.calls) <= fd.calls && origin == if more != [] then fd else old(origin)
      ensures r.Byte? ==>
                (fd.calls == old(fd.calls) && fd.last == old(fd.last)) || (fd.last.Data? && fd.last != Data([]))
      ensures r.EndOfFile? ==> ReadEnded(fd)
      ensures r.Failed? ==> ReadFailed(fd)
    {
      ghost var carried := Carry();
      r, more := ReadByte(fd);
      Extended(stream, [], taken, carried, more);
      if r.Byte? {
        line[n] := r.c;
      }
    }

    /** The loop of `Readline`: bytes go to the line until it is full, a newline was stored,
        the stream ended or a read failed. */
    method Gather(fd: ReadEnd, line: array<byte>, maxlen: nat) returns (n: nat, stop: Stop, ghost news: seq<byte>)
      requires Valid() && maxlen <= line.Length && line != buf
      modifies this, buf, fd, line
      ensures Valid() && n <= line.Length && (n < maxlen || n == 0)
      ensures fd.delivered == old(fd.delivered) + news
      ensures old(Carry()) + news == line[..n] + Carry()
      ensures stop == Full ==> NEWLINE !in line[..n] && maxlen <= n + 1
      ensures stop == Newline ==> EndsInNewline(line[..n])
      ensures stop == StreamEnd || stop == Failure ==> NEWLINE !in line[..n] && n + 1 < maxlen && Carry() == []
      ensures old(fd.calls) <= fd.calls && (stop == StreamEnd <==> ReadEnded(fd))
      ensures stop == Failure <==> ReadFailed(fd)
      ensures origin == if news != [] then fd else old(origin)
    {
      hide Line, Complete, StartsWithCarry, Carried, Reader.Carry, Reader.Valid;
      n, news := 0, [];
      ghost var start, before, taken, first := fd.delivered, Carry(), [], origin;
      while n + 1 < maxlen
        invariant n == |taken| && (n < maxlen || n == 0) && Valid()
        invariant fd.delivered == start + news
        invariant line[..n] == taken && NEWLINE !in taken
        invariant before + news == taken + Carry()
        invariant old(fd.calls) <= fd.calls && !ReadEnded(fd) && !ReadFailed(fd)
        invariant origin == if news == [] then first else fd
      {
        var r;
        ghost var more;
        r, more := Pull(fd, line, n, before + news, taken);
        Extended(start, news, start, news, more);
        Extended(before, news, before, news, more);
        news := news + more;
        if r.EndOfFile? {
          return n, StreamEnd, news;
        } else if r.Failed? {
          return n, Failure, news;
        }
        n, taken := n + 1, taken + [r.c];
        if r.c == NEWLINE {
          assert taken[..n - 1] == line[..n - 1];
          return n, Newline, news;
        }
      }
      stop := Full;
    }

    /** `Readline`.  Whatever the sizes of the reads, the result is the next line of the
        carried bytes followed by the new ones; what follows the line stays in the carry.
        The line is incomplete exactly if the stream ended.  The result is -1 exactly if the
        last read of the call failed; bytes are lost, being in neither the result nor the
        carry, exactly if moreover there were any.

        Whatever was carried comes first, whichever descriptor it is from: of the line, the
        first `Carried(n, carry)` bytes are `origin`'s and the others the descriptor's own, and all
        are its own if and only if nothing was carried, or it was carried from it. */
    method ReadLine(fd: ReadEnd, line: array<byte>, maxlen: nat) returns (n: int, ghost news: seq<byte>)
      requires Valid() && maxlen <= line.Length && 1 <= line.Length && line != buf
      modifies this, buf, fd, line
      ensures Valid() && fd.delivered == old(fd.delivered) + news
      ensures -1 <= n && (n < 0 <==> ReadFailed(fd)) && old(fd.calls) <= fd.calls
      ensures 0 <= n ==>
                && n < line.Length && line[n] == 0
                && line[..n] == Line(old(Carry()) + news, maxlen)
                && old(Carry()) + news == line[..n] + Carry()
                && (Complete(line[..n], maxlen) <==> !ReadEnded(fd))
                && (ReadEnded(fd) ==> Carry() == [])
      ensures n < 0 ==>
                && Carry() == []
                && !Complete(Line(old(Carry()) + news, maxlen), maxlen)
                && Line(old(Carry()) + news, maxlen) == old(Carry()) + news
      ensures old(Carry()) + news == (if 0 <= n then line[..n] else []) + Carry() <==>
              !(ReadFailed(fd) && old(Carry()) + news != [])
      ensures 0 <= n ==> StartsWithCarry(line[..n], old(Carry()), news)
      ensures 0 <= n && 2 <= maxlen ==> (Carried(n, old(Carry())) == 0 <==> old(Carry()) == [])
      ensures origin == if news != [] then fd else old(origin)
    {
      hide Line, Complete, StartsWithCarry, EndsInNewline;
      var stop;
      ghost var before := Carry();
      n, stop, news := Gather(fd, line, maxlen);
      ghost var taken, rest := line[..n], Carry();
      Gathered(before + news, taken, rest, stop, maxlen);
      CarryComesFirst(before, news, taken, rest);
      if stop == Failure {
        return -1, news;
      }
      line[n] := 0;
      assert line[..n] == taken;
    }

    /** Any number of calls, up to one that fails or finds the end: together they return the
        first lines of the stream, in order.  `unread` is what is left: the carry, unless a
        read failed; then it is the line in which that happened. */
    method ReadLines(fd: ReadEnd, line: array<byte>, maxlen: nat, count: nat)
      returns (lines: seq<seq<byte>>, failed: bool, ghost unread: seq<byte>, ghost news: seq<byte>)
      requires Valid() && 2 <= maxlen <= line.Length && line != buf
      modifies this, buf, fd, line
      ensures Valid() && fd.delivered == old(fd.delivered) + news
      ensures Lines(old(Carry()) + news, maxlen) == lines + Lines(unread, maxlen)
      ensures if failed then Carry() == [] && ReadFailed(fd) else unread == Carry()
      ensures |lines| < count && !failed ==> ReadEnded(fd) && unread == []
    {
      hide Lines, Line, CutsInto;
      lines, failed, unread, news := [], false, Carry(), [];
      ghost var start, before := fd.delivered, Carry();
      NothingCut(before, maxlen);
      for i := 0 to count
        invariant Valid() && fd.delivered == start + news && unread == Carry() && |lines| == i
        invariant CutsInto(before + news, lines, unread, maxlen)
        invariant old(fd.calls) <= fd.calls
      {
        ghost var more;
        var n;
        n, more := ReadLine(fd, line, maxlen);
        MoreToCut(before, news, lines, unread, maxlen, more);
        Extended(start, news, start, news, more);
        unread, news := unread + more, news + more;
        if n < 0 {
          CutsAreLines(before + news, lines, unread, maxlen);
          return lines, true, unread, news;
        }
        if n + 1 < maxlen && (n == 0 || line[n - 1] != NEWLINE) {
          CutsAreLines(before + news, lines, unread, maxlen);
          OnlyLine(unread, maxlen);
          lines := lines + if n == 0 then [] else [line[..n]];
          return lines, false, [], news;
        }
        assert Line(unread, maxlen) == line[..n] && Complete(line[..n], maxlen);
        CutAgain(before + news, lines, unread, maxlen);
        lines, unread := lines + [line[..n]], unread[n..];
      }
      CutsAreLines(before + news, lines, unread, maxlen);
    }
  }
}
