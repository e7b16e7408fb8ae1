/** Framing of the chat protocol (`protocol/Codec`): a 10-byte little-endian header
    followed by the body.  `Decode` says what a decoder must find in a byte stream;
    `TryDecode` is the loop over the connection's input buffer. */
module Codec {
  import opened NetBuffer

  newtype uint16 = x: int | 0 <= x < 0x1_0000
  newtype uint32 = x: int | 0 <= x < 0x1_0000_0000

  const HEADER_SIZE: nat := 10
  const MAX_BODY_SIZE: nat := 4 * 1024 * 1024

  datatype Frame = Frame(msgId: uint16, seq_: uint32, body: seq<byte>)

  // ---- little-endian integers ----

  function Le16(v: uint16): (s: seq<byte>)
    ensures |s| == 2
  {
    [(v % 256) as byte, (v / 256) as byte]
  }

  function Le32(v: uint32): (s: seq<byte>)
    ensures |s| == 4
  {
    [(v % 256) as byte, (v / 256 % 256) as byte, (v / 256 / 256 % 256) as byte, (v / 256 / 256 / 256) as byte]
  }

  function ReadLe16(s: seq<byte>): uint16
    requires |s| == 2
  {
    s[0] as uint16 + 256 * s[1] as uint16
  }

  function ReadLe32(s: seq<byte>): uint32
    requires |s| == 4
  {
    s[0] as uint32 + 256 * (s[1] as uint32 + 256 * (s[2] as uint32 + 256 * s[3] as uint32))
  }

  lemma Le16RoundTrip(v: uint16, s: seq<byte>)
    requires |s| == 2
    ensures ReadLe16(Le16(v)) == v
    ensures Le16(ReadLe16(s)) == s
  {
  }

  lemma Le32RoundTrip(v: uint32, s: seq<byte>)
    requires |s| == 4
    ensures ReadLe32(Le32(v)) == v
    ensures Le32(ReadLe32(s)) == s
  {
    Horner(s[0] as int, s[1] as int + 256 * (s[2] as int + 256 * s[3] as int));
    Horner(s[1] as int, s[2] as int + 256 * s[3] as int);
    Horner(s[2] as int, s[3] as int);
  }

  lemma Horner(low: int, high: int)
    requires 0 <= low < 256
    ensures (low + 256 * high) % 256 == low && (low + 256 * high) / 256 == high
  {
  }

  /** The value of `n` bytes of a stream, the lowest first. */
  function LittleEndian(s: seq<byte>, at: nat, n: nat): nat
    requires at + n <= |s|
    decreases n
  {
    if n == 0 then 0 else s[at] as nat + 256 * LittleEndian(s, at + 1, n - 1)
  }

  // ---- encoding ----

  /** The length field keeps only 32 bits of the body's size. */
  function Encode(f: Frame): (s: seq<byte>)
    ensures |s| == HEADER_SIZE + |f.body|
  {
    Le16(f.msgId) + Le32((|f.body| % 0x1_0000_0000) as uint32) + Le32(f.seq_) + f.body
  }

  function EncodeAll(fs: seq<Frame>): seq<byte> {
    if fs == [] then [] else Encode(fs[0]) + EncodeAll(fs[1..])
  }

  /** The frame on the wire: two bytes of message id, four of length, four of sequence number,
      each with the lowest byte first, then the body. */
  lemma Layout(f: Frame)
    ensures |Encode(f)| == 10 + |f.body|
    ensures LittleEndian(Encode(f), 0, 2) == f.msgId as nat
    ensures LittleEndian(Encode(f), 2, 4) == |f.body| % 0x1_0000_0000
    ensures LittleEndian(Encode(f), 6, 4) == f.seq_ as nat
    ensures Encode(f)[10..] == f.body
  {
    var len := (|f.body| % 0x1_0000_0000) as uint32;
    var s := Encode(f);
    Le16RoundTrip(f.msgId, s[0..2]);
    Le32RoundTrip(len, s[2..6]);
    Le32RoundTrip(f.seq_, s[6..10]);
    ReadsLe16(s, 0);
    ReadsLe32(s, 2);
    ReadsLe32(s, 6);
    hide ReadLe32, ReadLe16, Le32, Le16;
    assert s[0..2] == Le16(f.msgId) && s[2..6] == Le32(len) && s[6..10] == Le32(f.seq_);
  }

  lemma ReadsLe16(s: seq<byte>, at: nat)
    requires at + 2 <= |s|
    ensures ReadLe16(s[at..at + 2]) as nat == LittleEndian(s, at, 2)
  {
    assert LittleEndian(s, at + 1, 1) == s[at + 1] as nat + 256 * LittleEndian(s, at + 2, 0);
  }

  lemma ReadsLe32(s: seq<byte>, at: nat)
    requires at + 4 <= |s|
    ensures ReadLe32(s[at..at + 4]) as nat == LittleEndian(s, at, 4)
  {
    assert LittleEndian(s, at + 3, 1) == s[at + 3] as nat + 256 * LittleEndian(s, at + 4, 0);
    assert LittleEndian(s, at + 2, 2) == s[at + 2] as nat + 256 * LittleEndian(s, at + 3, 1);
    assert LittleEndian(s, at + 1, 3) == s[at + 1] as nat + 256 * LittleEndian(s, at + 2, 2);
  }

  // ---- what a decoder must find ----

  /** The frames at the front of a stream, the bytes left over, and whether decoding
      stopped at a header that cannot be trusted. */
  datatype Decoded = Decoded(frames: seq<Frame>, rest: seq<byte>, fatal: bool) {
    /** The same outcome, with `earlier` decoded in front of it. */
    function After(earlier: seq<Frame>): Decoded {
      this.(frames := earlier + frames)
    }
  }

  function BodyLen(s: seq<byte>): nat
    requires HEADER_SIZE <= |s|
  {
    ReadLe32(s[2..6]) as nat
  }

  /** The frame that a stream starts with, once it is there in full. */
  function FirstFrame(s: seq<byte>): Frame
    requires HEADER_SIZE <= |s| && HEADER_SIZE + BodyLen(s) <= |s|
  {
    Frame(ReadLe16(s[0..2]), ReadLe32(s[6..10]), s[HEADER_SIZE..HEADER_SIZE + BodyLen(s)])
  }

  function Decode(s: seq<byte>): Decoded {
    if |s| < HEADER_SIZE then Decoded([], s, false)
    else if MAX_BODY_SIZE < BodyLen(s) then Decoded([], [], true)
    else if |s| < HEADER_SIZE + BodyLen(s) then Decoded([], s, false)
    else Decode(s[HEADER_SIZE + BodyLen(s)..]).After([FirstFrame(s)])
  }

  lemma SameHeader(a: seq<byte>, s: seq<byte>)
    requires HEADER_SIZE <= |a| && a <= s
    ensures BodyLen(s) == BodyLen(a)
    ensures s[0..2] == a[0..2] && s[6..10] == a[6..10]
  {
    assert s[0..2] == a[0..2] && s[2..6] == a[2..6] && s[6..10] == a[6..10];
  }

  /** Taking one frame off the stream, with `frames` taken before it. */
  lemma TakeFrame(s: seq<byte>, frames: seq<Frame>)
    requires HEADER_SIZE <= |s| && BodyLen(s) <= MAX_BODY_SIZE && HEADER_SIZE + BodyLen(s) <= |s|
    ensures Decode(s).After(frames) == Decode(s[HEADER_SIZE + BodyLen(s)..]).After(frames + [FirstFrame(s)])
  {
    hide ReadLe32, ReadLe16;
    AfterAfter(Decode(s[HEADER_SIZE + BodyLen(s)..]), [FirstFrame(s)], frames);
  }

  lemma AfterAfter(d: Decoded, later: seq<Frame>, earlier: seq<Frame>)
    ensures d.After(later).After(earlier) == d.After(earlier + later)
  {
    assert earlier + (later + d.frames) == earlier + later + d.frames;
  }

  lemma Unchanged(d: Decoded)
    ensures d.After([]) == d
  {
    assert [] + d.frames == d.frames;
  }

  /** What remains when the loop stops. */
  lemma Stop(s: seq<byte>, frames: seq<Frame>)
    requires |s| < HEADER_SIZE || MAX_BODY_SIZE < BodyLen(s) || |s| < HEADER_SIZE + BodyLen(s)
    ensures Decode(s).After(frames) ==
            if |s| < HEADER_SIZE || BodyLen(s) <= MAX_BODY_SIZE then Decoded(frames, s, false)
            else Decoded(frames, [], true)
  {
    assert frames + [] == frames;
  }

  // ---- the decoding loop ----

  method TryDecode(buf: Buffer) returns (frames: seq<Frame>, fatal: bool)
    requires buf.Valid()
    modifies buf`reader, buf`writer
    ensures buf.Valid()
    ensures Decode(old(buf.Contents())) == Decoded(frames, buf.Contents(), fatal)
  {
    hide ReadLe32, ReadLe16, Decode, Decoded.After;
    frames := [];
    Unchanged(Decode(buf.Contents()));
    while HEADER_SIZE <= buf.Readable()
      invariant buf.Valid()
      invariant Decode(old(buf.Contents())) == Decode(buf.Contents()).After(frames)
      decreases buf.Readable()
    {
      ghost var s := buf.Contents();
      var msgId, bodyLen := ReadLe16(buf.Peek(0, 2)), ReadLe32(buf.Peek(2, 4)) as nat;
      if MAX_BODY_SIZE < bodyLen {
        Stop(s, frames);
        buf.RetrieveAll();
        return frames, true;
      }
      var total := HEADER_SIZE + bodyLen;
      if buf.Readable() < total {
        break;
      }
      var frame := Frame(msgId, ReadLe32(buf.Peek(6, 4)), buf.Peek(HEADER_SIZE, bodyLen));
      TakeFrame(s, frames);
      frames := frames + [frame];
      buf.Retrieve(total);
    }
    Stop(buf.Contents(), frames);
    fatal := false;
  }

  // ---- laws of the decoder ----

  /** More input never changes what was already decoded, and the rest is decoded as if
      the leftover and the new input had arrived together. */
  lemma {:induction false} DecodeAppend(a: seq<byte>, b: seq<byte>)
    ensures Decode(a + b) ==
            if Decode(a).fatal then Decode(a) else Decode(Decode(a).rest + b).After(Decode(a).frames)
  {
    hide ReadLe32, ReadLe16;
    if HEADER_SIZE <= |a| {
      SameHeader(a, a + b);
    }
    if HEADER_SIZE <= |a| && BodyLen(a) <= MAX_BODY_SIZE && HEADER_SIZE + BodyLen(a) <= |a| {
      var total := HEADER_SIZE + BodyLen(a);
      assert (a + b)[total..] == a[total..] + b;
      assert (a + b)[HEADER_SIZE..total] == a[HEADER_SIZE..total];
      DecodeAppend(a[total..], b);
      var tail := Decode(a[total..]);
      AfterAfter(Decode(tail.rest + b), tail.frames, [FirstFrame(a)]);
    }
  }

  function Flatten(chunks: seq<seq<byte>>): seq<byte> {
    if chunks == [] then [] else chunks[0] + Flatten(chunks[1..])
  }

  /** A connection's input path: every chunk is appended to the leftover and decoded,
      and the first untrustworthy header ends it. */
  function Feed(leftover: seq<byte>, chunks: seq<seq<byte>>): Decoded
    decreases |chunks|
  {
    if chunks == [] then Decoded([], leftover, false)
    else
      var d := Decode(leftover + chunks[0]);
      if d.fatal then d else Feed(d.rest, chunks[1..]).After(d.frames)
  }

  /** The leftover of a decoder never holds anything more to decode. */
  lemma {:induction false} LeftoverIsStuck(s: seq<byte>)
    ensures !Decode(s).fatal ==> Decode(Decode(s).rest) == Decoded([], Decode(s).rest, false)
    ensures |Decode(s).rest| < HEADER_SIZE + MAX_BODY_SIZE
  {
    hide ReadLe32, ReadLe16;
    if HEADER_SIZE <= |s| && BodyLen(s) <= MAX_BODY_SIZE && HEADER_SIZE + BodyLen(s) <= |s| {
      LeftoverIsStuck(s[HEADER_SIZE + BodyLen(s)..]);
    }
  }

  lemma {:induction false} FeedIsDecode(leftover: seq<byte>, chunks: seq<seq<byte>>)
    requires Decode(leftover) == Decoded([], leftover, false)
    ensures Feed(leftover, chunks) == Decode(leftover + Flatten(chunks))
    decreases |chunks|
  {
    if chunks == [] {
      assert leftover + Flatten(chunks) == leftover;
    } else {
      var first := leftover + chunks[0];
      assert leftover + Flatten(chunks) == first + Flatten(chunks[1..]);
      DecodeAppend(first, Flatten(chunks[1..]));
      LeftoverIsStuck(first);
      if !Decode(first).fatal {
        FeedIsDecode(Decode(first).rest, chunks[1..]);
      }
    }
  }

  /** However the network cuts a stream, the same frames, leftover and verdict result. */
  lemma ChunkIndependence(chunks: seq<seq<byte>>)
    ensures Feed([], chunks) == Decode(Flatten(chunks))
  {
    FeedIsDecode([], chunks);
    assert [] + Flatten(chunks) == Flatten(chunks);
  }

  /** What was consumed is exactly the encodings of the frames delivered. */
  lemma {:induction false} DecodeIsExact(s: seq<byte>)
    ensures !Decode(s).fatal ==> EncodeAll(Decode(s).frames) + Decode(s).rest == s
    ensures EncodeAll(Decode(s).frames) <= s
    ensures AllFit(Decode(s).frames)
  {
    hide ReadLe32, ReadLe16, Encode;
    if HEADER_SIZE <= |s| && BodyLen(s) <= MAX_BODY_SIZE && HEADER_SIZE + BodyLen(s) <= |s| {
      var total := HEADER_SIZE + BodyLen(s);
      EncodeFirstFrame(s);
      var tail := Decode(s[total..]);
      DecodeIsExact(s[total..]);
      assert Decode(s) == tail.After([FirstFrame(s)]);
      hide Decode;
      EncodeOneMore(FirstFrame(s), tail.frames);
      Glued(s, total, EncodeAll(tail.frames), tail.rest);
    }
  }

  /** Decoding is given up exactly if behind the frames delivered stands a header that
      announces a body of more than 4 MiB; then everything behind them is dropped. */
  lemma {:induction false} FatalIffBadHeader(s: seq<byte>)
    ensures var n := |EncodeAll(Decode(s).frames)|;
            && n <= |s|
            && (Decode(s).fatal <==> 10 <= |s[n..]| && 4194304 < LittleEndian(s[n..], 2, 4))
            && Decode(s).rest == if Decode(s).fatal then [] else s[n..]
  {
    hide ReadLe32, ReadLe16, Encode, LittleEndian;
    if HEADER_SIZE <= |s| {
      ReadsLe32(s, 2);
    }
    if HEADER_SIZE <= |s| && BodyLen(s) <= MAX_BODY_SIZE && HEADER_SIZE + BodyLen(s) <= |s| {
      var tail := s[HEADER_SIZE + BodyLen(s)..];
      FatalIffBadHeader(tail);
      EncodeOneMore(FirstFrame(s), Decode(tail).frames);
      var m := |EncodeAll(Decode(tail).frames)|;
      assert tail[m..] == s[HEADER_SIZE + BodyLen(s) + m..];
    } else {
      assert s[0..] == s;
    }
  }

  lemma EncodeOneMore(f: Frame, fs: seq<Frame>)
    ensures EncodeAll([f] + fs) == Encode(f) + EncodeAll(fs)
  {
    assert ([f] + fs)[1..] == fs;
  }

  lemma Glued(s: seq<byte>, n: nat, p: seq<byte>, q: seq<byte>)
    requires n <= |s| && p <= s[n..]
    ensures s[..n] + p <= s
    ensures p + q == s[n..] ==> s[..n] + p + q == s
  {
    assert s == s[..n] + s[n..];
    assert s[..n] + p + q == s[..n] + (p + q);
  }

  lemma EncodeFirstFrame(s: seq<byte>)
    requires HEADER_SIZE <= |s| && HEADER_SIZE + BodyLen(s) <= |s|
    ensures Encode(FirstFrame(s)) == s[..HEADER_SIZE + BodyLen(s)]
  {
    Le16RoundTrip(0, s[0..2]);
    Le32RoundTrip(0, s[2..6]);
    Le32RoundTrip(0, s[6..10]);
    hide ReadLe32, ReadLe16, Le32, Le16;
    assert (|FirstFrame(s).body| % 0x1_0000_0000) as uint32 == ReadLe32(s[2..6]);
    assert s[..HEADER_SIZE + BodyLen(s)] ==
           s[0..2] + s[2..6] + s[6..10] + s[HEADER_SIZE..HEADER_SIZE + BodyLen(s)];
  }

  /** How the header of an encoded frame reads back. */
  lemma EncodedHeader(f: Frame, tail: seq<byte>)
    ensures BodyLen(Encode(f) + tail) == |f.body| % 0x1_0000_0000
    ensures |f.body| <= MAX_BODY_SIZE ==> FirstFrame(Encode(f) + tail) == f
  {
    var len := (|f.body| % 0x1_0000_0000) as uint32;
    Le16RoundTrip(f.msgId, [0, 0]);
    Le32RoundTrip(len, [0, 0, 0, 0]);
    Le32RoundTrip(f.seq_, [0, 0, 0, 0]);
    hide ReadLe32, ReadLe16, Le32, Le16;
    var s := Encode(f) + tail;
    assert s[0..2] == Le16(f.msgId) && s[2..6] == Le32(len) && s[6..10] == Le32(f.seq_);
    assert s[HEADER_SIZE..HEADER_SIZE + |f.body|] == f.body;
  }

  ghost predicate AllFit(fs: seq<Frame>) {
    forall f :: f in fs ==> |f.body| <= MAX_BODY_SIZE
  }

  /** Decoding undoes encoding exactly for the frames whose bodies respect the limit;
      `Encode` itself does not check it. */
  lemma {:induction false} RoundTripIffAllFit(fs: seq<Frame>)
    ensures Decode(EncodeAll(fs)) == Decoded(fs, [], false) <==> AllFit(fs)
  {
    hide ReadLe32, ReadLe16, Encode;
    if fs != [] {
      var s := EncodeAll(fs);
      EncodedHeader(fs[0], EncodeAll(fs[1..]));
      assert fs == [fs[0]] + fs[1..];
      if |fs[0].body| <= MAX_BODY_SIZE {
        assert s[HEADER_SIZE + |fs[0].body|..] == EncodeAll(fs[1..]);
        RoundTripIffAllFit(fs[1..]);
        assert Decode(s).frames[1..] == Decode(EncodeAll(fs[1..])).frames;
      } else if Decode(s).frames != [] {
        assert |Decode(s).frames[0].body| == BodyLen(s) < |fs[0].body|;
      }
    }
  }
}
