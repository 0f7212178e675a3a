/**
 * The response framing of the wire protocol as rethinkdb/twisted_net/net_twisted.py reads it: a
 * twelve byte header, `struct.unpack("<qL")`, and then as many bytes as the header says.
 */
module Framing {
  import opened ByteStrings

  const HEADER_SIZE := 12
  const TOKEN_RANGE := 0x1_0000_0000_0000_0000
  const LENGTH_RANGE := 0x1_0000_0000

  // ----- "<qL": a signed 64 bit and an unsigned 32 bit number, low byte first -----

  function Unsigned(bs: Bytes): nat {
    if bs == [] then 0 else bs[0] + 256 * Unsigned(bs[1..])
  }

  function LittleEndian(n: nat, width: nat): (bs: Bytes)
    ensures |bs| == width
    decreases width
  {
    if width == 0 then [] else [n % 256] + LittleEndian(n / 256, width - 1)
  }

  function Pow256(width: nat): (p: nat)
    ensures p > 0
  {
    if width == 0 then 1 else 256 * Pow256(width - 1)
  }

  lemma {:induction false} UnsignedOfLittleEndian(n: nat, width: nat)
    requires n < Pow256(width)
    ensures Unsigned(LittleEndian(n, width)) == n
    decreases width
  {
    if width > 0 {
      UnsignedOfLittleEndian(n / 256, width - 1);
      assert LittleEndian(n, width)[1..] == LittleEndian(n / 256, width - 1);
    }
  }

  lemma {:induction false} LittleEndianOfUnsigned(bs: Bytes)
    ensures Unsigned(bs) < Pow256(|bs|)
    ensures LittleEndian(Unsigned(bs), |bs|) == bs
  {
    if bs != [] {
      LittleEndianOfUnsigned(bs[1..]);
      assert Unsigned(bs) / 256 == Unsigned(bs[1..]) && Unsigned(bs) % 256 == bs[0];
    }
  }

  predicate IsToken(token: int) {
    -TOKEN_RANGE / 2 <= token < TOKEN_RANGE / 2
  }

  predicate IsLength(length: int) {
    0 <= length < LENGTH_RANGE
  }

  function Header(token: int, length: nat): (h: Bytes)
    requires IsToken(token) && IsLength(length)
    ensures |h| == HEADER_SIZE
  {
    LittleEndian(if token >= 0 then token else token + TOKEN_RANGE, 8) + LittleEndian(length, 4)
  }

  function TokenOf(header: Bytes): int
    requires |header| == HEADER_SIZE
  {
    var u := Unsigned(header[..8]);
    if u < TOKEN_RANGE / 2 then u else u - TOKEN_RANGE
  }

  function LengthOf(header: Bytes): nat
    requires |header| == HEADER_SIZE
  {
    Unsigned(header[8..])
  }

  lemma HeaderRange()
    ensures Pow256(8) == TOKEN_RANGE && Pow256(4) == LENGTH_RANGE
  {
    assert Pow256(2) == 0x1_0000;
    assert Pow256(4) == 0x1_0000_0000;
    assert Pow256(6) == 0x1_0000_0000_0000;
  }

  /** A number without its `i` lowest bytes */
  function Shifted(n: nat, i: nat): nat {
    if i == 0 then n else Shifted(n / 256, i - 1)
  }

  lemma {:induction false} ByteAt(n: nat, width: nat, i: nat)
    requires i < width
    ensures LittleEndian(n, width)[i] == Shifted(n, i) % 256
  {
    if i > 0 {
      ByteAt(n / 256, width - 1, i - 1);
    }
  }

  /** The layout of a header: eight bytes of token, then four of length, each with the lowest first */
  lemma HeaderBytes(token: int, length: nat, i: nat)
    requires IsToken(token) && IsLength(length)
    ensures var h := Header(token, length);
            && (i < 8 ==> h[i] == Shifted(if token >= 0 then token else TOKEN_RANGE + token, i) % 256)
            && (i < 4 ==> h[8 + i] == Shifted(length, i) % 256)
  {
    hide LittleEndian, Shifted;
    if i < 8 {
      ByteAt(if token >= 0 then token else TOKEN_RANGE + token, 8, i);
    }
    if i < 4 {
      ByteAt(length, 4, i);
    }
  }

  /** Reading a header undoes writing it. */
  lemma HeaderRoundTrip(token: int, length: nat)
    requires IsToken(token) && IsLength(length)
    ensures TokenOf(Header(token, length)) == token && LengthOf(Header(token, length)) == length
  {
    var h, u := Header(token, length), if token >= 0 then token else token + TOKEN_RANGE;
    HeaderRange();
    UnsignedOfLittleEndian(u, 8);
    UnsignedOfLittleEndian(length, 4);
    assert h[..8] == LittleEndian(u, 8) && h[8..] == LittleEndian(length, 4);
  }

  /** Writing what was read gives the header again: nothing of it is lost. */
  lemma HeaderIsRead(h: Bytes)
    requires |h| == HEADER_SIZE
    ensures IsToken(TokenOf(h)) && IsLength(LengthOf(h)) && Header(TokenOf(h), LengthOf(h)) == h
  {
    HeaderRange();
    LittleEndianOfUnsigned(h[..8]);
    LittleEndianOfUnsigned(h[8..]);
  }

  /** `struct.pack("<QL", token, length)`, the header of a query, whose token is unsigned */
  function QueryHeader(token: nat, length: nat): (h: Bytes)
    ensures |h| == HEADER_SIZE
  {
    LittleEndian(token, 8) + LittleEndian(length, 4)
  }

  /** The token of a query, sent back by the server, is read as the same number exactly below 2^63. */
  lemma TokenComesBack(token: nat, length: nat)
    requires token < TOKEN_RANGE && IsLength(length)
    ensures TokenOf(QueryHeader(token, length)) == token <==> IsToken(token)
    ensures LengthOf(QueryHeader(token, length)) == length
  {
    HeaderRange();
    UnsignedOfLittleEndian(token, 8);
    UnsignedOfLittleEndian(length, 4);
    var h := QueryHeader(token, length);
    assert h[..8] == LittleEndian(token, 8) && h[8..] == LittleEndian(length, 4);
  }

  // ----- the whole stream at once -----

  datatype Frame = Frame(token: int, payload: Bytes)

  /** The frames of a stream, and what follows the last whole one */
  datatype Decoded = Decoded(frames: seq<Frame>, tail: Bytes)

  predicate HasFrame(s: Bytes) {
    |s| >= HEADER_SIZE && |s| >= HEADER_SIZE + LengthOf(s[..HEADER_SIZE])
  }

  function FrameEnd(s: Bytes): (end: nat)
    requires HasFrame(s)
    ensures HEADER_SIZE <= end <= |s|
  {
    HEADER_SIZE + LengthOf(s[..HEADER_SIZE])
  }

  function FirstFrame(s: Bytes): Frame
    requires HasFrame(s)
  {
    Frame(TokenOf(s[..HEADER_SIZE]), s[HEADER_SIZE..FrameEnd(s)])
  }

  function Decode(s: Bytes): Decoded
    decreases |s|
  {
    if HasFrame(s) then
      var rest := Decode(s[FrameEnd(s)..]);
      Decoded([FirstFrame(s)] + rest.frames, rest.tail)
    else
      Decoded([], s)
  }

  predicate IsFrame(f: Frame) {
    IsToken(f.token) && IsLength(|f.payload|)
  }

  predicate AreFrames(frames: seq<Frame>) {
    forall i :: 0 <= i < |frames| ==> IsFrame(frames[i])
  }

  function Encode(frames: seq<Frame>): Bytes
    requires AreFrames(frames)
  {
    if frames == [] then [] else Header(frames[0].token, |frames[0].payload|) + frames[0].payload + Encode(frames[1..])
  }

  /** A stream that starts with a frame is read as that frame. */
  lemma FirstFrameOf(f: Frame, rest: Bytes)
    requires IsFrame(f)
    ensures var s := Header(f.token, |f.payload|) + f.payload + rest;
            HasFrame(s) && FirstFrame(s) == f && s[FrameEnd(s)..] == rest
  {
    hide Header, TokenOf, LengthOf;
    HeaderRoundTrip(f.token, |f.payload|);
    var h := Header(f.token, |f.payload|);
    var s := h + f.payload + rest;
    assert s[..HEADER_SIZE] == h;
    assert s[HEADER_SIZE..FrameEnd(s)] == f.payload;
  }

  lemma EncodeSplit(frames: seq<Frame>, tail: Bytes)
    requires AreFrames(frames) && frames != []
    ensures Encode(frames) + tail
         == Header(frames[0].token, |frames[0].payload|) + frames[0].payload + (Encode(frames[1..]) + tail)
  {
    hide Header;
  }

  /** What a server sent is what is decoded. */
  lemma {:induction false} DecodeOfEncode(frames: seq<Frame>, tail: Bytes)
    requires AreFrames(frames)
    requires !HasFrame(tail)
    ensures Decode(Encode(frames) + tail) == Decoded(frames, tail)
  {
    hide Header, HasFrame, FirstFrame, FrameEnd, Encode;
    if frames == [] {
      EncodeNone(tail);
    } else {
      var f, rest := frames[0], Encode(frames[1..]) + tail;
      DecodeOfEncode(frames[1..], tail);
      FirstFrameOf(f, rest);
      EncodeSplit(frames, tail);
      assert [f] + frames[1..] == frames;
    }
  }

  lemma EncodeFirst(s: Bytes, frames: seq<Frame>)
    requires HasFrame(s) && AreFrames(frames)
    ensures IsFrame(FirstFrame(s)) && Encode([FirstFrame(s)] + frames) == s[..FrameEnd(s)] + Encode(frames)
  {
    var h, f := s[..HEADER_SIZE], FirstFrame(s);
    HeaderIsRead(h);
    assert |f.payload| == LengthOf(h);
    hide TokenOf, LengthOf, Header, IsToken, IsLength;
    assert ([f] + frames)[0] == f && ([f] + frames)[1..] == frames;
    assert s[..FrameEnd(s)] == h + f.payload;
  }

  lemma Regroup(s: Bytes, end: nat, a: Bytes, b: Bytes)
    requires end <= |s| && s[end..] == a + b
    ensures s[..end] + a + b == s
  {
    assert s[..end] + a + b == s[..end] + s[end..];
  }

  lemma EncodeNone(s: Bytes)
    ensures Encode([]) + s == s
  {
    assert [] + s == s;
  }

  /** Nothing is lost: frames and tail spell the stream. */
  lemma {:induction false} EncodeOfDecode(s: Bytes)
    ensures var d := Decode(s);
            AreFrames(d.frames) && Encode(d.frames) + d.tail == s && !HasFrame(d.tail)
    decreases |s|
  {
    hide HasFrame, FirstFrame, FrameEnd, Encode;
    if HasFrame(s) {
      var rest, end := Decode(s[FrameEnd(s)..]), FrameEnd(s);
      EncodeOfDecode(s[end..]);
      EncodeFirst(s, rest.frames);
      Regroup(s, end, Encode(rest.frames), rest.tail);
    } else {
      EncodeNone(s);
    }
  }

  /** Bytes that follow do not change the frames that were whole already. */
  lemma {:induction false} DecodeInTwo(a: Bytes, b: Bytes)
    ensures var d := Decode(Decode(a).tail + b);
            Decode(a + b) == Decoded(Decode(a).frames + d.frames, d.tail)
    decreases |a|
  {
    hide HasFrame, FrameEnd, FirstFrame;
    if HasFrame(a) {
      var rest := a[FrameEnd(a)..];
      DecodeInTwo(rest, b);
      FirstFrameStays(a, b);
      var d := Decode(Decode(rest).tail + b);
      assert [FirstFrame(a)] + (Decode(rest).frames + d.frames) == [FirstFrame(a)] + Decode(rest).frames + d.frames;
    }
  }

  lemma FirstFrameStays(a: Bytes, b: Bytes)
    requires HasFrame(a)
    ensures HasFrame(a + b) && FirstFrame(a + b) == FirstFrame(a)
    ensures (a + b)[FrameEnd(a + b)..] == a[FrameEnd(a)..] + b
  {
    hide TokenOf, LengthOf;
    var end := FrameEnd(a);
    assert (a + b)[..HEADER_SIZE] == a[..HEADER_SIZE];
    assert (a + b)[HEADER_SIZE..end] == a[HEADER_SIZE..end];
    assert (a + b)[end..] == a[end..] + b;
  }
}
