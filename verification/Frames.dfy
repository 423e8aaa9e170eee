/** Frames as section 4.2.3 of AMQP 0-9-1 lays them out, and the two readers of them. */
module Frames {
  import opened Wire

  datatype Frame = Frame(kind: Byte, channel: nat, payload: Bytes)

  const FRAME_END: Byte := 0xCE
  const FRAME_MIN_SIZE: int := 4096
  const FRAME_MAX_DEFAULT: int := 131072
  /** The buffer size of the reader that connections use. */
  const DEFAULT_BUFFER: nat := 4096

  predicate ValidKind(kind: Byte) {
    kind == 1 || kind == 2 || kind == 3 || kind == 8
  }

  function EncodeFrame(f: Frame): Bytes {
    [f.kind] + BigEndian(f.channel, 2) + BigEndian(|f.payload|, 4) + f.payload + [FRAME_END]
  }

  /** A frame the encoder accepts, with fields that fit their wire widths. */
  predicate Encodable(f: Frame) {
    ValidKind(f.kind) && f.channel < 0x1_0000 && Short(f.payload)
  }

  // ---------------------------------------------------------------- Field by field

  function ReadFrame(b: Bytes, maxSize: int): (r: Read<Frame>)
    ensures r.Ok? ==> |r.rest| < |b|
  {
    var kind := ReadNumber(b, 1);
    if kind.Err? then Err else
    var channel := ReadNumber(kind.rest, 2);
    if channel.Err? then Err else
    var length := ReadNumber(channel.rest, 4);
    if length.Err? || length.value > maxSize then Err else
    if |length.rest| < length.value then Err else
    var payload := length.rest[..length.value];
    var end := ReadNumber(length.rest[length.value..], 1);
    if end.Err? || end.value != FRAME_END then Err else Ok(Frame(b[0], channel.value, payload), end.rest)
  }

  // ---------------------------------------------------------------- By peeking

  /** The length field of a header of at least seven bytes. */
  function HeaderLength(b: Bytes): nat
    requires |b| >= 7
  {
    Number(b[3..7])
  }

  function NextFrame(b: Bytes, buffer: nat, maxSize: int): (r: Read<Frame>)
    requires buffer >= 16
    ensures r.Ok? ==> |r.rest| < |b|
  {
    if |b| < 7 || !ValidKind(b[0]) then Err else
    var n := HeaderLength(b);
    if n > maxSize || 8 + n > buffer || |b| < 8 + n || b[7 + n] != FRAME_END then Err
    else Ok(Frame(b[0], Number(b[1..3]), b[7..7 + n]), b[8 + n..])
  }

  /** What reading field by field computes, said with positions. */
  lemma ReadFrameAt(b: Bytes, maxSize: int)
    ensures ReadFrame(b, maxSize) ==
            if |b| < 7 || HeaderLength(b) > maxSize || |b| < 8 + HeaderLength(b) || b[7 + HeaderLength(b)] != FRAME_END
            then Err
            else Ok(Frame(b[0], Number(b[1..3]), b[7..7 + HeaderLength(b)]), b[8 + HeaderLength(b)..])
  {
    if |b| >= 7 {
      var n := HeaderLength(b);
      assert b[1..][..2] == b[1..3] && b[1..][2..] == b[3..] && b[3..][..4] == b[3..7] && b[3..][4..] == b[7..];
      if n <= maxSize && |b| >= 7 + n {
        assert b[7..][..n] == b[7..7 + n] && b[7..][n..] == b[7 + n..];
        if |b| >= 8 + n {
          OneByte(b[7 + n..]);
          assert b[7 + n..][1..] == b[8 + n..];
        }
      }
    }
  }

  lemma OneByte(b: Bytes)
    requires b != []
    ensures Number(b[..1]) == b[0]
  {
    assert b[..1] == [b[0]];
    assert Number([b[0]][..0]) == 0;
  }

  /** The peeking reader succeeds exactly when the other one does, the type is valid and the
      frame fits the buffer; then both return the same frame and leave the same bytes. */
  lemma ReadersAgree(b: Bytes, buffer: nat, maxSize: int)
    requires buffer >= 16
    ensures NextFrame(b, buffer, maxSize) ==
            if ReadFrame(b, maxSize).Ok? && ValidKind(b[0]) && 8 + |ReadFrame(b, maxSize).value.payload| <= buffer
            then ReadFrame(b, maxSize) else Err
  {
    ReadFrameAt(b, maxSize);
  }

  // ---------------------------------------------------------------- Streams

  function EncodeAll(fs: seq<Frame>): Bytes {
    if fs == [] then [] else EncodeFrame(fs[0]) + EncodeAll(fs[1..])
  }

  /** `n` reads in a row. */
  function ReadMany(b: Bytes, maxSize: int, n: nat): Read<seq<Frame>> {
    if n == 0 then Ok([], b)
    else
      var f := ReadFrame(b, maxSize);
      if f.Err? then Err
      else
        var more := ReadMany(f.rest, maxSize, n - 1);
        if more.Err? then Err else Ok([f.value] + more.value, more.rest)
  }

  function NextMany(b: Bytes, buffer: nat, maxSize: int, n: nat): Read<seq<Frame>>
    requires buffer >= 16
  {
    if n == 0 then Ok([], b)
    else
      var f := NextFrame(b, buffer, maxSize);
      if f.Err? then Err
      else
        var more := NextMany(f.rest, buffer, maxSize, n - 1);
        if more.Err? then Err else Ok([f.value] + more.value, more.rest)
  }

  lemma EncodedAt(f: Frame, rest: Bytes)
    requires Encodable(f)
    ensures var b := EncodeFrame(f) + rest; var n := |f.payload|;
            && |b| >= 8 + n && b[0] == f.kind && Number(b[1..3]) == f.channel && HeaderLength(b) == n
            && b[7..7 + n] == f.payload && b[7 + n] == FRAME_END && b[8 + n..] == rest
  {
    var b := EncodeFrame(f) + rest;
    assert b[1..3] == BigEndian(f.channel, 2) && b[3..7] == BigEndian(|f.payload|, 4);
    Widths();
    NumberOfBigEndian(f.channel, 2);
    NumberOfBigEndian(|f.payload|, 4);
  }

  lemma ReadWrittenFrame(f: Frame, rest: Bytes, maxSize: int)
    requires Encodable(f) && |f.payload| <= maxSize
    ensures ReadFrame(EncodeFrame(f) + rest, maxSize) == Ok(f, rest)
  {
    ReadFrameAt(EncodeFrame(f) + rest, maxSize);
    EncodedAt(f, rest);
  }

  lemma EncodeAllCons(fs: seq<Frame>, rest: Bytes)
    requires fs != []
    ensures EncodeAll(fs) + rest == EncodeFrame(fs[0]) + (EncodeAll(fs[1..]) + rest)
  {
    Regroup(EncodeFrame(fs[0]), EncodeAll(fs[1..]), rest);
  }

  lemma ReadManyCons(b: Bytes, maxSize: int, f: Frame, tail: Bytes, fs: seq<Frame>, rest: Bytes)
    requires ReadFrame(b, maxSize) == Ok(f, tail) && ReadMany(tail, maxSize, |fs|) == Ok(fs, rest)
    ensures ReadMany(b, maxSize, |fs| + 1) == Ok([f] + fs, rest)
  {
  }

  /** Reading back a stream of frames within the limit returns the frames and what follows. */
  lemma {:induction false} StreamRoundTrip(fs: seq<Frame>, rest: Bytes, maxSize: int)
    requires forall f | f in fs :: Encodable(f) && |f.payload| <= maxSize
    ensures ReadMany(EncodeAll(fs) + rest, maxSize, |fs|) == Ok(fs, rest)
  {
    if fs == [] {
      assert EncodeAll(fs) + rest == rest;
    } else {
      var tail := EncodeAll(fs[1..]) + rest;
      EncodeAllCons(fs, rest);
      ReadWrittenFrame(fs[0], tail, maxSize);
      StreamRoundTrip(fs[1..], rest, maxSize);
      ReadManyCons(EncodeAll(fs) + rest, maxSize, fs[0], tail, fs[1..], rest);
      assert fs == [fs[0]] + fs[1..];
    }
  }

  lemma NextWrittenFrame(f: Frame, rest: Bytes, buffer: nat, maxSize: int)
    requires buffer >= 16 && Encodable(f) && |f.payload| <= maxSize
    ensures NextFrame(EncodeFrame(f) + rest, buffer, maxSize) == if 8 + |f.payload| <= buffer then Ok(f, rest) else Err
  {
    ReadWrittenFrame(f, rest, maxSize);
    ReadersAgree(EncodeFrame(f) + rest, buffer, maxSize);
  }

  /** Every frame, with header and trailer, fits the buffer. */
  ghost predicate AllFit(fs: seq<Frame>, buffer: nat) {
    forall f | f in fs :: 8 + |f.payload| <= buffer
  }

  lemma NextManyCons(b: Bytes, buffer: nat, maxSize: int, n: nat)
    requires buffer >= 16 && n > 0
    ensures NextMany(b, buffer, maxSize, n) ==
            match NextFrame(b, buffer, maxSize)
            case Err => Err
            case Ok(f, tail) =>
              match NextMany(tail, buffer, maxSize, n - 1)
              case Err => Err
              case Ok(more, rest) => Ok([f] + more, rest)
  {
  }

  /** The peeking reader returns the stream exactly when every frame fits its buffer. */
  lemma {:induction false} PeekedStream(fs: seq<Frame>, rest: Bytes, buffer: nat, maxSize: int)
    requires buffer >= 16 && forall f | f in fs :: Encodable(f) && |f.payload| <= maxSize
    ensures NextMany(EncodeAll(fs) + rest, buffer, maxSize, |fs|) == if AllFit(fs, buffer) then Ok(fs, rest) else Err
  {
    if fs == [] {
      assert EncodeAll(fs) + rest == rest;
    } else {
      var tail := EncodeAll(fs[1..]) + rest;
      EncodeAllCons(fs, rest);
      NextWrittenFrame(fs[0], tail, buffer, maxSize);
      PeekedStream(fs[1..], rest, buffer, maxSize);
      NextManyCons(EncodeAll(fs) + rest, buffer, maxSize, |fs|);
      assert fs == [fs[0]] + fs[1..];
      assert AllFit(fs, buffer) <==> 8 + |fs[0].payload| <= buffer && AllFit(fs[1..], buffer);
    }
  }

  /** With a connection's buffer and limit, a frame within the limit is read only if its payload
      has at most 4088 bytes. */
  lemma ConnectionReads(f: Frame, rest: Bytes)
    requires Encodable(f) && |f.payload| <= FRAME_MAX_DEFAULT
    ensures ReadFrame(EncodeFrame(f) + rest, FRAME_MAX_DEFAULT) == Ok(f, rest)
    ensures NextFrame(EncodeFrame(f) + rest, DEFAULT_BUFFER, FRAME_MAX_DEFAULT) == Ok(f, rest) <==> |f.payload| <= 4088
  {
    ReadWrittenFrame(f, rest, FRAME_MAX_DEFAULT);
    NextWrittenFrame(f, rest, DEFAULT_BUFFER, FRAME_MAX_DEFAULT);
  }

  // ---------------------------------------------------------------- The source's methods

  method WriteFrame(e: Encoder, f: Frame) returns (ok: bool)
    modifies e
    ensures ok <==> ValidKind(f.kind)
    ensures e.buf == old(e.buf) + if ok then EncodeFrame(f) else []
  {
    if !ValidKind(f.kind) { return false; }
    ghost var b0 := e.buf;
    e.WriteByte(f.kind);
    e.WriteUint(f.channel, 2);
    e.WriteUint(|f.payload|, 4);
    e.Write(f.payload);
    e.WriteByte(FRAME_END);
    assert e.buf == b0 + EncodeFrame(f);
    ok := true;
  }

  method DecodeFrame(d: Decoder, maxSize: int) returns (ok: bool, f: Frame)
    modifies d
    ensures ok <==> ReadFrame(old(d.data), maxSize).Ok?
    ensures ok ==> ReadFrame(old(d.data), maxSize) == Ok(f, d.data)
  {
    f := Frame(0, 0, []);
    var kind, channel, length, payload, end;
    ok, kind := d.ReadFull(1);
    if !ok { return; }
    ok, channel := d.ReadUint(2);
    if !ok { return; }
    ok, length := d.ReadUint(4);
    if !ok { return; }
    if length > maxSize { return false, f; }
    ok, payload := d.ReadFull(length);
    if !ok { return; }
    ok, end := d.ReadUint(1);
    if !ok { return; }
    if end != FRAME_END { return false, f; }
    f := Frame(kind[0], channel, payload);
  }

  /** The incremental reader over a buffered stream. */
  class Framer {
    var stream: Bytes
    const buffer: nat
    const maxSize: int

    constructor (stream: Bytes, buffer: nat, maxSize: int)
      ensures this.stream == stream && this.buffer == (if buffer < 16 then 16 else buffer)
      ensures this.maxSize == if maxSize < FRAME_MIN_SIZE then FRAME_MAX_DEFAULT else maxSize
    {
      this.stream := stream;
      this.buffer := if buffer < 16 then 16 else buffer;
      this.maxSize := if maxSize < FRAME_MIN_SIZE then FRAME_MAX_DEFAULT else maxSize;
    }

    /** The next bytes without consuming them; more than the buffer holds cannot be peeked. */
    method Peek(n: nat) returns (ok: bool, b: Bytes)
      ensures ok <==> n <= buffer && n <= |stream|
      ensures ok ==> b == stream[..n]
    {
      ok := n <= buffer && n <= |stream|;
      b := if ok then stream[..n] else [];
    }

    method Next() returns (ok: bool, f: Frame)
      requires buffer >= 16
      modifies this
      ensures ok <==> NextFrame(old(stream), buffer, maxSize).Ok?
      ensures ok ==> NextFrame(old(stream), buffer, maxSize) == Ok(f, stream)
      ensures !ok && stream != old(stream) ==>
                && |old(stream)| >= 7 && |old(stream)| >= 8 + HeaderLength(old(stream))
                && old(stream)[7 + HeaderLength(old(stream))] != FRAME_END
                && stream == old(stream)[8 + HeaderLength(old(stream))..]
    {
      f := Frame(0, 0, []);
      var header, data;
      ok, header := Peek(7);
      if !ok { return; }
      if !ValidKind(header[0]) { return false, f; }
      var length := (header[3] as int) * 0x100_0000 + (header[4] as int) * 0x1_0000
                    + (header[5] as int) * 0x100 + header[6];
      FourBytes(header, stream);
      if length > maxSize { return false, f; }
      var total := 7 + length + 1;
      ok, data := Peek(total);
      if !ok { return; }
      stream := stream[total..];
      if data[total - 1] != FRAME_END { return false, f; }
      TwoBytes(data, old(stream));
      assert data[7..7 + length] == old(stream)[7..7 + length];
      f := Frame(header[0], (data[1] as int) * 0x100 + data[2], data[7..7 + length]);
    }
  }

  lemma FourBytes(header: Bytes, b: Bytes)
    requires |b| >= 7 && header == b[..7]
    ensures HeaderLength(b) == (header[3] as int) * 0x100_0000 + (header[4] as int) * 0x1_0000
                               + (header[5] as int) * 0x100 + header[6]
  {
    var s := b[3..7];
    assert s[..3][..2] == s[..2] && s[..2][..1] == s[..1] && s[..1][..0] == [];
    assert s[..1] == [header[3]];
    assert Number(s[..1]) == header[3];
    assert Number(s[..2]) == 256 * Number(s[..1]) + header[4];
    assert Number(s[..3]) == 256 * Number(s[..2]) + header[5];
    assert Number(s) == 256 * Number(s[..3]) + header[6];
  }

  lemma TwoBytes(data: Bytes, b: Bytes)
    requires |data| >= 3 && data <= b
    ensures Number(b[1..3]) == (data[1] as int) * 0x100 + data[2]
  {
    var s := b[1..3];
    assert s[..1][..0] == [] && s[..1] == [data[1]];
    assert Number(s[..1]) == data[1];
    assert Number(s) == 256 * Number(s[..1]) + data[2];
  }
}
