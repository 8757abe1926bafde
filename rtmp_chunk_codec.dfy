/** The byte-level chunk format of the Adobe RTMP specification, section 5.3, as
    RtmpChunkHandlerTrait builds it: the basic header (5.3.1.1), the message
    header of formats 0-3 (5.3.1.2), the extended timestamp (5.3.1.3), the
    splitting of a message into chunks (`rtmpChunksCreate`), and the fixed
    layouts of the protocol control messages of section 5.4. Beside the
    encoders stand reference decoders that read the same fields back the way
    section 5.3 describes, so that each encoder has a round trip. */
module RtmpChunkCodec {
  import opened Bytes
  import opened RtmpTypes
  import opened RtmpConstants

  // ---------------------------------------------------------------- basic header

  /** rtmpChunkBasicHeaderCreate: the chunk format in the top two bits of the first
      byte; the chunk stream id in its low six bits (ids below 64), in one extra byte
      (ids 64 to 318, low bits 0) or in two extra little-endian bytes (ids from 319 on,
      low bits 1), both as id - 64. */
  function BasicHeader(fmt: nat, cid: nat): (r: seq<byte>)
    ensures cid < 64 ==> |r| == 1 && r[0] / 64 == fmt % 4 && r[0] % 64 == cid
    ensures 64 <= cid < 319 ==> |r| == 2 && r[0] / 64 == fmt % 4 && r[0] % 64 == 0 && r[1] == cid - 64
    ensures 319 <= cid ==> |r| == 3 && r[0] / 64 == fmt % 4 && r[0] % 64 == 1
                           && ReadLe16(r[1..]) == (cid - 64) % TWO16
  {
    if cid >= 64 + 255 then
      Le16RoundTrip(cid - 64);
      FirstByte(fmt, 1);
      [(fmt * 64 + 1) % 256] + Le16(cid - 64)
    else if cid >= 64 then
      FirstByte(fmt, 0);
      [(fmt * 64 + 0) % 256, cid - 64]
    else
      FirstByte(fmt, cid);
      [(fmt * 64 + cid) % 256]
  }

  /** `pack('C', $fmt << 6 | $low)` keeps fmt modulo 4 in the top bits and low in the rest. */
  lemma FirstByte(fmt: nat, low: nat)
    requires low < 64
    ensures ((fmt * 64 + low) % 256) / 64 == fmt % 4
    ensures ((fmt * 64 + low) % 256) % 64 == low
  {
    var q, r := fmt / 4, fmt % 4;
    assert fmt == 4 * q + r;
    var x := fmt * 64 + low;
    assert x == 256 * q + (64 * r + low);
    assert x % 256 == 64 * r + low;
  }

  datatype BasicHeaderFields = BasicHeaderFields(fmt: nat, csId: nat, size: nat)

  /** The basic-header rules of `onChunkData`: fmt is the first byte shifted right by
      six; low bits 0 mean one extra byte holding id - 64, low bits 1 two extra
      little-endian bytes holding id - 64; any other value is the id itself. None when
      the bytes end before the header does. */
  function DecodeBasicHeader(b: seq<byte>): (r: Option<BasicHeaderFields>)
    ensures r.Some? <==> |b| >= 1 && |b| >= BaseHeaderSizeAt(b[0] % 64)
    ensures r.Some? ==> r.value.size == BaseHeaderSizeAt(b[0] % 64)
                        && r.value.fmt == b[0] / 64 < 4 && r.value.csId >= 2
  {
    if |b| == 0 then None
    else
      var low, fmt := b[0] % 64, b[0] / 64;
      if low == 0 then
        if |b| >= 2 then Some(BasicHeaderFields(fmt, b[1] as nat + 64, 2)) else None
      else if low == 1 then
        if |b| >= 3 then Some(BasicHeaderFields(fmt, 64 + ReadLe16(b[1..3]), 3)) else None
      else
        Some(BasicHeaderFields(fmt, low, 1))
  }

  /** Decoding an encoded basic header (with anything after it) gives back the format
      and the chunk stream id, for every id from 2 to 65599. */
  lemma BasicHeaderRoundTrip(fmt: nat, cid: nat, rest: seq<byte>)
    requires fmt < 4 && 2 <= cid <= 65599
    ensures DecodeBasicHeader(BasicHeader(fmt, cid) + rest)
            == Some(BasicHeaderFields(fmt, cid, |BasicHeader(fmt, cid)|))
  {
    var h := BasicHeader(fmt, cid);
    if cid >= 319 {
      LongBasicHeaderDecodes(fmt, cid, rest);
    } else {
      var b := h + rest;
      assert b[0] == h[0];
      if cid >= 64 {
        assert b[1] == h[1];
      }
    }
  }

  lemma LongBasicHeaderDecodes(fmt: nat, cid: nat, rest: seq<byte>)
    requires fmt < 4 && 319 <= cid <= 65599
    ensures DecodeBasicHeader(BasicHeader(fmt, cid) + rest) == Some(BasicHeaderFields(fmt, cid, 3))
  {
    var h := BasicHeader(fmt, cid);
    var b := h + rest;
    assert b[0] == h[0] && b[0] % 64 == 1;
    assert b[1..3] == h[1..];
    assert (cid - 64) % TWO16 == cid - 64;
  }

  /** Exactly the ids 2..65599 survive the round trip: ids 0 and 1 collide with the
      escape values of the low six bits, larger ids are truncated to 16 bits. */
  lemma BasicHeaderRoundTripExactly(fmt: nat, cid: nat)
    requires fmt < 4
    ensures DecodeBasicHeader(BasicHeader(fmt, cid)) == Some(BasicHeaderFields(fmt, cid, |BasicHeader(fmt, cid)|))
            <==> 2 <= cid <= 65599
  {
    var h := BasicHeader(fmt, cid);
    if 2 <= cid <= 65599 {
      BasicHeaderRoundTrip(fmt, cid, []);
      assert h + [] == h;
    } else if cid > 65599 {
      var d := DecodeBasicHeader(h);
      assert d.Some? && d.value.csId == 64 + (cid - 64) % TWO16;
      assert (cid - 64) % TWO16 < cid - 64;
    }
  }

  // -------------------------------------------------------------- message header

  /** rtmpChunkMessageHeaderCreate: for formats 0-2 the timestamp (capped at
      MAX_TIMESTAMP) as the low three bytes of pack('N'); for formats 0-1 also the
      length (low three bytes of pack('N')) and the type byte; for format 0 also the
      message stream id as pack('L'). */
  function MessageHeader(chunkType: nat, timestamp: nat, length: nat, msgType: nat, streamId: nat): (r: seq<byte>)
    ensures |r| == if chunkType < 4 then MsgHeaderSize(chunkType) else 0
  {
    (if chunkType <= CHUNK_TYPE_2
     then Be32(if timestamp >= MAX_TIMESTAMP then MAX_TIMESTAMP else timestamp)[1..] else [])
    + (if chunkType <= CHUNK_TYPE_1 then Be32(length)[1..] + [msgType % 256] else [])
    + (if chunkType == CHUNK_TYPE_0 then Le32(streamId) else [])
  }

  /** The fields a message header of some format carries; None for an omitted field. */
  datatype MessageHeaderFields = MessageHeaderFields(
    timestamp: Option<nat>, length: Option<nat>, msgType: Option<nat>, streamId: Option<nat>)

  /** Reading a message header of format `fmt` as section 5.3.1.2 lays it out. */
  function DecodeMessageHeader(fmt: nat, h: seq<byte>): (r: MessageHeaderFields)
    requires fmt < 4 && |h| >= MsgHeaderSize(fmt)
    ensures r.timestamp.Some? <==> fmt <= 2
    ensures r.length.Some? <==> fmt <= 1
    ensures r.msgType.Some? <==> fmt <= 1
    ensures r.streamId.Some? <==> fmt == 0
  {
    MessageHeaderFields(
      if fmt <= 2 then Some(ReadBe24(h[0..3])) else None,
      if fmt <= 1 then Some(ReadBe24(h[3..6])) else None,
      if fmt <= 1 then Some(h[6]) else None,
      if fmt == 0 then Some(ReadLe32(h[7..11])) else None)
  }

  /** The message header round trip: the timestamp comes back capped at MAX_TIMESTAMP,
      the length truncated to 24 bits, the type to 8 bits and the stream id to 32 bits,
      and each field is present exactly for the formats that carry it. */
  lemma MessageHeaderRoundTrip(chunkType: nat, timestamp: nat, length: nat, msgType: nat, streamId: nat)
    requires chunkType < 4
    ensures DecodeMessageHeader(chunkType, MessageHeader(chunkType, timestamp, length, msgType, streamId))
         == MessageHeaderFields(
              if chunkType <= 2 then Some(Min(timestamp, MAX_TIMESTAMP)) else None,
              if chunkType <= 1 then Some(length % TWO24) else None,
              if chunkType <= 1 then Some(msgType % 256) else None,
              if chunkType == 0 then Some(streamId % TWO32) else None)
  {
    var h := MessageHeader(chunkType, timestamp, length, msgType, streamId);
    var ts := if timestamp >= MAX_TIMESTAMP then MAX_TIMESTAMP else timestamp;
    Be32Low(ts);
    Be32Low(length);
    Be24RoundTrip(ts);
    Be24RoundTrip(length);
    Le32RoundTrip(streamId);
    if chunkType <= 2 {
      assert h[0..3] == Be24(ts);
    }
    if chunkType <= 1 {
      assert h[3..6] == Be24(length);
      assert h[6] == msgType % 256;
    }
    if chunkType == 0 {
      assert h[7..11] == Le32(streamId);
    }
  }

  // ------------------------------------------------------------ splitting a message

  /** The fields of an outgoing `RtmpPacket` that `rtmpChunksCreate` reads. */
  datatype ChunkPacket = ChunkPacket(
    chunkType: nat, chunkStreamId: nat, timestamp: nat, length: nat,
    msgType: nat, streamId: nat, payload: seq<byte>)

  predicate UsesExtendedTimestamp(p: ChunkPacket) {
    p.timestamp >= MAX_TIMESTAMP
  }

  /** The first header: basic header, message header, and the 4-byte timestamp when
      the extended timestamp is in use. */
  function ChunkHead(p: ChunkPacket): seq<byte> {
    BasicHeader(p.chunkType, p.chunkStreamId)
      + MessageHeader(p.chunkType, p.timestamp, p.length, p.msgType, p.streamId)
      + (if UsesExtendedTimestamp(p) then Be32(p.timestamp) else [])
  }

  /** What goes between two payload slices: a format-3 basic header, followed by the
      4-byte timestamp when the extended timestamp is in use. */
  function ChunkSeparator(p: ChunkPacket): seq<byte> {
    BasicHeader(CHUNK_TYPE_3, p.chunkStreamId)
      + (if UsesExtendedTimestamp(p) then Be32(p.timestamp) else [])
  }

  /** The loop of `rtmpChunksCreate` from read offset `off` on: a slice of at most
      `chunkSize` payload bytes (`substr`, so it is short or empty past the payload's
      end), then the separator while the offset is still below `length`. */
  function ChunkBody(payload: seq<byte>, off: nat, length: nat, chunkSize: nat, sep: seq<byte>): seq<byte>
    requires chunkSize > 0
    decreases length - off
  {
    if off >= length then []
    else
      var size := Min(length - off, chunkSize);
      Substr(payload, off, size)
        + (if off + size < length then sep else [])
        + ChunkBody(payload, off + size, length, chunkSize, sep)
  }

  /** The whole output of `rtmpChunksCreate`. */
  function ChunkStream(p: ChunkPacket, chunkSize: nat): seq<byte>
    requires chunkSize > 0
  {
    ChunkHead(p) + ChunkBody(p.payload, 0, p.length, chunkSize, ChunkSeparator(p))
  }

  /** rtmpChunksCreate, with `outChunkSize` as a parameter. */
  method RtmpChunksCreate(p: ChunkPacket, outChunkSize: nat) returns (out: seq<byte>)
    requires outChunkSize > 0
    ensures out == ChunkStream(p, outChunkSize)
  {
    var baseHeader := BasicHeader(p.chunkType, p.chunkStreamId);
    var baseHeader3 := BasicHeader(CHUNK_TYPE_3, p.chunkStreamId);
    var msgHeader := MessageHeader(p.chunkType, p.timestamp, p.length, p.msgType, p.streamId);
    var useExtendedTimestamp := p.timestamp >= MAX_TIMESTAMP;
    var timestampBin := Be32(p.timestamp);
    out := baseHeader + msgHeader;
    if useExtendedTimestamp {
      out := out + timestampBin;
    }
    assert out == ChunkHead(p);
    out := AppendChunks(out, p.payload, p.length, outChunkSize, baseHeader3, useExtendedTimestamp, timestampBin);
  }

  /** The `while` loop of rtmpChunksCreate: appends the payload slices of at most
      `chunkSize` bytes, each but the last followed by the type-3 basic header and, when
      the extended timestamp is in use, the 4-byte timestamp. */
  method AppendChunks(head: seq<byte>, payload: seq<byte>, length: nat, chunkSize: nat,
                      baseHeader3: seq<byte>, useExtendedTimestamp: bool, timestampBin: seq<byte>)
    returns (out: seq<byte>)
    requires chunkSize > 0
    ensures out == head + ChunkBody(payload, 0, length, chunkSize,
                                    baseHeader3 + (if useExtendedTimestamp then timestampBin else []))
  {
    ghost var sep := baseHeader3 + (if useExtendedTimestamp then timestampBin else []);
    ghost var total := head + ChunkBody(payload, 0, length, chunkSize, sep);
    out := head;
    var readOffset := 0;
    while length - readOffset != 0
      invariant readOffset <= length
      invariant out + ChunkBody(payload, readOffset, length, chunkSize, sep) == total
      decreases length - readOffset
    {
      var remain := length - readOffset;
      var size := Min(remain, chunkSize);
      ghost var before, from := out, readOffset;
      var slice := Substr(payload, readOffset, size);
      readOffset := readOffset + size;
      var separator: seq<byte> := [];
      if readOffset < length {
        separator := baseHeader3;
        if useExtendedTimestamp {
          separator := separator + timestampBin;
        }
      }
      out := out + (slice + separator);
      ChunkBodyAppend(before, payload, from, length, chunkSize, sep);
    }
  }

  /** One iteration of the loop of `rtmpChunksCreate`: the output so far followed by the
      body from `off` is the output after emitting one slice (and separator), followed by
      the body from the next offset. */
  lemma ChunkBodyAppend(out: seq<byte>, payload: seq<byte>, off: nat, length: nat, chunkSize: nat, sep: seq<byte>)
    requires chunkSize > 0 && off < length
    ensures var size := Min(length - off, chunkSize);
      out + (Substr(payload, off, size) + (if off + size < length then sep else []))
        + ChunkBody(payload, off + size, length, chunkSize, sep)
      == out + ChunkBody(payload, off, length, chunkSize, sep)
  {
    ChunkBodyStep(payload, off, length, chunkSize, sep);
  }

  lemma ChunkBodyStep(payload: seq<byte>, off: nat, length: nat, chunkSize: nat, sep: seq<byte>)
    requires chunkSize > 0 && off < length
    ensures var size := Min(length - off, chunkSize);
      ChunkBody(payload, off, length, chunkSize, sep)
      == Substr(payload, off, size) + (if off + size < length then sep else [])
         + ChunkBody(payload, off + size, length, chunkSize, sep)
  {
  }

  /** The payload cut into consecutive slices of `chunkSize` bytes, the last one
      possibly shorter. */
  function Slices(p: seq<byte>, chunkSize: nat): seq<seq<byte>>
    requires chunkSize > 0
    decreases |p|
  {
    if |p| == 0 then []
    else if |p| <= chunkSize then [p]
    else [p[..chunkSize]] + Slices(p[chunkSize..], chunkSize)
  }

  function Flatten(ss: seq<seq<byte>>): seq<byte> {
    if |ss| == 0 then [] else ss[0] + Flatten(ss[1..])
  }

  /** The slices with `sep` between consecutive ones, and none after the last. */
  function Join(ss: seq<seq<byte>>, sep: seq<byte>): seq<byte> {
    if |ss| == 0 then []
    else if |ss| == 1 then ss[0]
    else ss[0] + sep + Join(ss[1..], sep)
  }

  /** The slices put back together are the payload; every slice is non-empty and at
      most `chunkSize` long, all but the last exactly `chunkSize`; there are
      ceil(|p| / chunkSize) of them (stated without division). */
  lemma {:induction false} SlicesProperties(p: seq<byte>, chunkSize: nat)
    requires chunkSize > 0
    ensures var ss := Slices(p, chunkSize);
      Flatten(ss) == p
      && (forall i :: 0 <= i < |ss| ==> 0 < |ss[i]| <= chunkSize)
      && (forall i :: 0 <= i < |ss| - 1 ==> |ss[i]| == chunkSize)
      && (|ss| == 0 <==> |p| == 0)
      && (|p| > 0 ==> (|ss| - 1) * chunkSize < |p| <= |ss| * chunkSize)
    decreases |p|
  {
    var ss := Slices(p, chunkSize);
    if |p| == 0 {
    } else if |p| <= chunkSize {
      assert ss == [p];
      assert Flatten(ss) == p + Flatten([]);
    } else {
      var rest := Slices(p[chunkSize..], chunkSize);
      SlicesProperties(p[chunkSize..], chunkSize);
      assert ss == [p[..chunkSize]] + rest;
      assert ss[1..] == rest;
      assert Flatten(ss) == p[..chunkSize] + Flatten(rest);
      assert p[..chunkSize] + p[chunkSize..] == p;
      assert forall i :: 1 <= i < |ss| ==> ss[i] == rest[i - 1];
      assert (|ss| - 1) * chunkSize == |rest| * chunkSize;
      assert |ss| * chunkSize == |rest| * chunkSize + chunkSize;
      assert (|rest| - 1) * chunkSize == |rest| * chunkSize - chunkSize;
    }
  }

  /** The slice count is ceil(|p| / chunkSize). */
  lemma SliceCount(p: seq<byte>, chunkSize: nat)
    requires chunkSize > 0
    ensures |Slices(p, chunkSize)| == (|p| + chunkSize - 1) / chunkSize
  {
    SlicesProperties(p, chunkSize);
    var n := |Slices(p, chunkSize)|;
    var a := |p| + chunkSize - 1;
    if n == 0 {
      assert a < chunkSize;
    } else {
      // (n - 1) * c < |p| <= n * c, so n * c <= a < (n + 1) * c
      assert n * chunkSize <= a < (n + 1) * chunkSize;
      DivIsUnique(a, chunkSize, n);
    }
  }

  lemma DivIsUnique(a: nat, c: nat, n: nat)
    requires c > 0 && n * c <= a < (n + 1) * c
    ensures a / c == n
  {
    var q := a / c;
    assert q * c <= a < (q + 1) * c;
    if q < n {
      MulMonotone(q + 1, n, c);
      assert false;
    } else if q > n {
      MulMonotone(n + 1, q, c);
      assert false;
    }
  }

  lemma MulMonotone(x: nat, y: nat, c: nat)
    requires x <= y
    ensures x * c <= y * c
  {
  }

  /** For a packet whose length is its payload's length, the loop emits the slices
      with a separator between consecutive slices and none after the last one. */
  lemma {:induction false} ChunkBodyIsJoin(payload: seq<byte>, off: nat, chunkSize: nat, sep: seq<byte>)
    requires chunkSize > 0 && off <= |payload|
    ensures ChunkBody(payload, off, |payload|, chunkSize, sep) == Join(Slices(payload[off..], chunkSize), sep)
    decreases |payload| - off
  {
    var p := payload[off..];
    if off == |payload| {
      assert p == [];
    } else {
      var size := Min(|payload| - off, chunkSize);
      assert Substr(payload, off, size) == payload[off..off + size];
      ChunkBodyIsJoin(payload, off + size, chunkSize, sep);
      if off + size < |payload| {
        assert size == chunkSize && |p| > chunkSize;
        assert p[..chunkSize] == payload[off..off + size];
        assert p[chunkSize..] == payload[off + size..];
        var rest := Slices(p[chunkSize..], chunkSize);
        assert Slices(p, chunkSize) == [p[..chunkSize]] + rest;
        assert |rest| >= 1;
        assert ([p[..chunkSize]] + rest)[1..] == rest;
      } else {
        assert size == |p|;
        assert payload[off..off + size] == p;
        assert payload[off + size..] == [];
        assert Slices(p, chunkSize) == [p];
      }
    }
  }

  /** A zero-length packet produces its first header and nothing else. */
  lemma EmptyPayloadOnlyHeader(p: ChunkPacket, chunkSize: nat)
    requires chunkSize > 0 && p.length == 0
    ensures ChunkStream(p, chunkSize) == ChunkHead(p)
  {
  }

  lemma {:induction false} JoinLength(ss: seq<seq<byte>>, sep: seq<byte>)
    requires |ss| > 0
    ensures |Join(ss, sep)| == |Flatten(ss)| + (|ss| - 1) * |sep|
    decreases |ss|
  {
    if |ss| > 1 {
      JoinLength(ss[1..], sep);
    } else {
      assert Flatten(ss) == ss[0] + Flatten([]);
    }
  }

  /** For a non-empty payload the chunked body holds the payload bytes plus
      ceil(length / chunkSize) - 1 separators. */
  lemma ChunkBodyLength(p: ChunkPacket, chunkSize: nat)
    requires chunkSize > 0 && p.length == |p.payload| > 0
    ensures |ChunkBody(p.payload, 0, p.length, chunkSize, ChunkSeparator(p))|
         == |p.payload| + ((p.length + chunkSize - 1) / chunkSize - 1) * |ChunkSeparator(p)|
  {
    var sep := ChunkSeparator(p);
    ChunkBodyIsJoin(p.payload, 0, chunkSize, sep);
    assert p.payload[0..] == p.payload;
    SlicesProperties(p.payload, chunkSize);
    SliceCount(p.payload, chunkSize);
    JoinLength(Slices(p.payload, chunkSize), sep);
  }

  // ------------------------------------------------------------ reading chunks back

  /** A reference reassembler: take at most `chunkSize` payload bytes, skip the
      `sepLen` bytes of the next chunk's header, and go on until `length` payload
      bytes are collected (section 5.3.1 of the RTMP specification). */
  function Dechunk(bytes: seq<byte>, length: nat, chunkSize: nat, sepLen: nat): seq<byte>
    requires chunkSize > 0
    decreases length
  {
    if length == 0 then []
    else if length <= chunkSize then Substr(bytes, 0, length)
    else
      Substr(bytes, 0, chunkSize)
        + (if |bytes| >= chunkSize + sepLen
           then Dechunk(bytes[chunkSize + sepLen..], length - chunkSize, chunkSize, sepLen) else [])
  }

  lemma {:induction false} DechunkJoin(p: seq<byte>, chunkSize: nat, sep: seq<byte>)
    requires chunkSize > 0
    ensures Dechunk(Join(Slices(p, chunkSize), sep), |p|, chunkSize, |sep|) == p
    decreases |p|
  {
    if |p| <= chunkSize {
      DechunkJoinSingle(p, chunkSize, sep);
    } else {
      var head, tail := p[..chunkSize], p[chunkSize..];
      assert head + tail == p;
      DechunkJoin(tail, chunkSize, sep);
      DechunkJoinStep(head, tail, sep);
    }
  }

  /** The base cases of DechunkJoin: no slice, or a single one. */
  lemma DechunkJoinSingle(p: seq<byte>, chunkSize: nat, sep: seq<byte>)
    requires |p| <= chunkSize && chunkSize > 0
    ensures Dechunk(Join(Slices(p, chunkSize), sep), |p|, chunkSize, |sep|) == p
  {
    if |p| > 0 {
      assert Slices(p, chunkSize) == [p];
    }
  }

  /** The inductive step of DechunkJoin: one full slice in front of a non-empty tail
      that reassembles. */
  lemma DechunkJoinStep(head: seq<byte>, tail: seq<byte>, sep: seq<byte>)
    requires |head| > 0 && |tail| > 0
    requires Dechunk(Join(Slices(tail, |head|), sep), |tail|, |head|, |sep|) == tail
    ensures Dechunk(Join(Slices(head + tail, |head|), sep), |head| + |tail|, |head|, |sep|) == head + tail
  {
    var c := |head|;
    var rest := Slices(tail, c);
    SlicesCons(head, tail);
    var j := Join(rest, sep);
    JoinCons(head, rest, sep);
    DechunkCons(head, sep, j, |head| + |tail|, c);
  }

  lemma SlicesCons(head: seq<byte>, tail: seq<byte>)
    requires |head| > 0 && |tail| > 0
    ensures Slices(head + tail, |head|) == [head] + Slices(tail, |head|)
    ensures |Slices(tail, |head|)| >= 1
  {
    var p := head + tail;
    assert p[..|head|] == head && p[|head|..] == tail;
  }

  /** Joining a non-empty list behind one more slice puts a separator between them. */
  lemma JoinCons(x: seq<byte>, rest: seq<seq<byte>>, sep: seq<byte>)
    requires |rest| >= 1
    ensures Join([x] + rest, sep) == x + sep + Join(rest, sep)
  {
    assert ([x] + rest)[1..] == rest;
  }

  /** Reassembly takes a full first chunk, skips the separator and goes on with the rest. */
  lemma DechunkCons(x: seq<byte>, sep: seq<byte>, tail: seq<byte>, length: nat, chunkSize: nat)
    requires chunkSize > 0 && |x| == chunkSize < length
    ensures Dechunk(x + sep + tail, length, chunkSize, |sep|)
            == x + Dechunk(tail, length - chunkSize, chunkSize, |sep|)
  {
    JoinSplit(x, sep, tail);
  }

  lemma JoinSplit(first: seq<byte>, sep: seq<byte>, tail: seq<byte>)
    ensures var j := first + sep + tail;
      j[|first| + |sep|..] == tail && Substr(j, 0, |first|) == first && |j| >= |first| + |sep|
  {
    var j := first + sep + tail;
    assert j[..|first|] == first;
  }

  /** Decoding the output of `rtmpChunksCreate` for a format-0 packet whose length is
      its payload's length recovers the chunk stream id, the header fields (the
      timestamp capped, the extended timestamp carrying the full value), and, skipping
      every separator, the payload itself. Each separator decodes as a format-3 basic
      header of the same chunk stream. */
  lemma ChunkStreamRoundTrip(p: ChunkPacket, chunkSize: nat)
    requires chunkSize > 0 && p.chunkType == CHUNK_TYPE_0 && p.length == |p.payload|
    requires 2 <= p.chunkStreamId <= 65599
    ensures var out := ChunkStream(p, chunkSize);
      var k := |BasicHeader(CHUNK_TYPE_0, p.chunkStreamId)|;
      var e := if UsesExtendedTimestamp(p) then 4 else 0;
      |out| >= k + 11 + e
      && DecodeBasicHeader(out) == Some(BasicHeaderFields(CHUNK_TYPE_0, p.chunkStreamId, k))
      && DecodeMessageHeader(CHUNK_TYPE_0, out[k..k + 11])
         == MessageHeaderFields(Some(Min(p.timestamp, MAX_TIMESTAMP)), Some(p.length % TWO24),
                                Some(p.msgType % 256), Some(p.streamId % TWO32))
      && (UsesExtendedTimestamp(p) ==> ReadBe32(out[k + 11..k + 15]) == p.timestamp % TWO32)
      && Dechunk(out[k + 11 + e..], p.length, chunkSize, |ChunkSeparator(p)|) == p.payload
      && DecodeBasicHeader(ChunkSeparator(p)).Some?
      && DecodeBasicHeader(ChunkSeparator(p)).value.fmt == CHUNK_TYPE_3
      && DecodeBasicHeader(ChunkSeparator(p)).value.csId == p.chunkStreamId
  {
    var sep := ChunkSeparator(p);
    var body := ChunkBody(p.payload, 0, p.length, chunkSize, sep);
    ChunkHeadDecodes(p, body);
    ChunkBodyIsJoin(p.payload, 0, chunkSize, sep);
    assert p.payload[0..] == p.payload;
    DechunkJoin(p.payload, chunkSize, sep);
    BasicHeaderRoundTrip(CHUNK_TYPE_3, p.chunkStreamId, if UsesExtendedTimestamp(p) then Be32(p.timestamp) else []);
  }

  /** The header part of ChunkStreamRoundTrip, for whatever follows the first header. */
  lemma ChunkHeadDecodes(p: ChunkPacket, tail: seq<byte>)
    requires p.chunkType == CHUNK_TYPE_0 && 2 <= p.chunkStreamId <= 65599
    ensures var out := ChunkHead(p) + tail;
      var k := |BasicHeader(CHUNK_TYPE_0, p.chunkStreamId)|;
      var e := if UsesExtendedTimestamp(p) then 4 else 0;
      |out| >= k + 11 + e
      && DecodeBasicHeader(out) == Some(BasicHeaderFields(CHUNK_TYPE_0, p.chunkStreamId, k))
      && DecodeMessageHeader(CHUNK_TYPE_0, out[k..k + 11])
         == MessageHeaderFields(Some(Min(p.timestamp, MAX_TIMESTAMP)), Some(p.length % TWO24),
                                Some(p.msgType % 256), Some(p.streamId % TWO32))
      && (UsesExtendedTimestamp(p) ==> ReadBe32(out[k + 11..k + 15]) == p.timestamp % TWO32)
      && out[k + 11 + e..] == tail
  {
    var bh := BasicHeader(CHUNK_TYPE_0, p.chunkStreamId);
    var mh := MessageHeader(p.chunkType, p.timestamp, p.length, p.msgType, p.streamId);
    var ext := if UsesExtendedTimestamp(p) then Be32(p.timestamp) else [];
    HeadParts(bh, mh, ext, tail);
    BasicHeaderRoundTrip(CHUNK_TYPE_0, p.chunkStreamId, mh + ext + tail);
    MessageHeaderRoundTrip(p.chunkType, p.timestamp, p.length, p.msgType, p.streamId);
    if UsesExtendedTimestamp(p) {
      Be32RoundTrip(p.timestamp);
    }
  }

  /** Where each part of a header sits in the concatenation. */
  lemma HeadParts(bh: seq<byte>, mh: seq<byte>, ext: seq<byte>, tail: seq<byte>)
    requires |mh| == 11
    ensures var out := bh + mh + ext + tail;
      var k := |bh|;
      out == bh + (mh + ext + tail)
      && out[k..k + 11] == mh
      && out[k + 11..k + 11 + |ext|] == ext
      && out[k + 11 + |ext|..] == tail
  {
    var out := bh + mh + ext + tail;
    assert out == bh + (mh + ext + tail);
  }

  // ----------------------------------------------------- protocol control messages

  // the hex templates of sendACK, sendWindowACK, setPeerBandwidth and setChunkSize
  const ACK_TEMPLATE: seq<byte> :=
    [0x02, 0x00, 0x00, 0x00, 0x00, 0x00, 0x04, 0x03, 0x00, 0x00, 0x00, 0x00, 0x00, 0x00, 0x00, 0x00]
  const WINDOW_ACK_TEMPLATE: seq<byte> :=
    [0x02, 0x00, 0x00, 0x00, 0x00, 0x00, 0x04, 0x05, 0x00, 0x00, 0x00, 0x00, 0x00, 0x00, 0x00, 0x00]
  const PEER_BANDWIDTH_TEMPLATE: seq<byte> :=
    [0x02, 0x00, 0x00, 0x00, 0x00, 0x00, 0x05, 0x06, 0x00, 0x00, 0x00, 0x00, 0x00, 0x00, 0x00, 0x00, 0x00]
  const SET_CHUNK_SIZE_TEMPLATE: seq<byte> :=
    [0x02, 0x00, 0x00, 0x00, 0x00, 0x00, 0x04, 0x01, 0x00, 0x00, 0x00, 0x00, 0x00, 0x00, 0x00, 0x00]

  /** The bytes `sendACK($size)` writes. */
  function AckMessage(size: nat): seq<byte> {
    SubstrReplaceFrom(ACK_TEMPLATE, Be32(size), 12)
  }

  /** The bytes `sendWindowACK($size)` writes. */
  function WindowAckMessage(size: nat): seq<byte> {
    SubstrReplaceFrom(WINDOW_ACK_TEMPLATE, Be32(size), 12)
  }

  /** The bytes `setPeerBandwidth($size, $type)` writes. */
  function PeerBandwidthMessage(size: nat, limitType: nat): seq<byte> {
    SubstrReplaceFrom(PEER_BANDWIDTH_TEMPLATE, Be32(size) + [limitType % 256], 12)
  }

  /** The bytes `setChunkSize($size)` writes. */
  function SetChunkSizeMessage(size: nat): seq<byte> {
    SubstrReplaceFrom(SET_CHUNK_SIZE_TEMPLATE, Be32(size), 12)
  }

  /** A protocol control message as the general encoder would build it: one chunk on
      chunk stream 2, format 0, timestamp 0, message stream 0, the payload's length. */
  ghost predicate IsProtocolControl(m: seq<byte>, msgType: nat, payload: seq<byte>) {
    m == BasicHeader(CHUNK_TYPE_0, CHANNEL_PROTOCOL)
         + MessageHeader(CHUNK_TYPE_0, 0, |payload|, msgType, 0) + payload
  }

  /** What a receiver reads from such a message: chunk stream 2 in a 1-byte basic
      header, the declared length and type, stream 0, and the payload at offset 12. */
  lemma ProtocolControlDecodes(m: seq<byte>, msgType: nat, payload: seq<byte>)
    requires IsProtocolControl(m, msgType, payload) && msgType < 256 && |payload| < TWO24
    ensures |m| == 12 + |payload|
    ensures DecodeBasicHeader(m) == Some(BasicHeaderFields(CHUNK_TYPE_0, CHANNEL_PROTOCOL, 1))
    ensures DecodeMessageHeader(CHUNK_TYPE_0, m[1..12])
            == MessageHeaderFields(Some(0), Some(|payload|), Some(msgType), Some(0))
    ensures m[12..] == payload
  {
    var mh := MessageHeader(CHUNK_TYPE_0, 0, |payload|, msgType, 0);
    BasicHeaderRoundTrip(CHUNK_TYPE_0, CHANNEL_PROTOCOL, mh + payload);
    assert m == BasicHeader(CHUNK_TYPE_0, CHANNEL_PROTOCOL) + (mh + payload);
    assert m[1..12] == mh;
    MessageHeaderRoundTrip(CHUNK_TYPE_0, 0, |payload|, msgType, 0);
  }

  /** The three 16-byte templates are protocol control messages of types 3, 5 and 1
      whose 4-byte payload is the value, big-endian. */
  lemma ControlMessageLayouts(size: nat)
    ensures |AckMessage(size)| == |WindowAckMessage(size)| == |SetChunkSizeMessage(size)| == 16
    ensures IsProtocolControl(AckMessage(size), TYPE_ACKNOWLEDGEMENT, Be32(size))
    ensures IsProtocolControl(WindowAckMessage(size), TYPE_WINDOW_ACKNOWLEDGEMENT_SIZE, Be32(size))
    ensures IsProtocolControl(SetChunkSizeMessage(size), TYPE_SET_CHUNK_SIZE, Be32(size))
    ensures AckMessage(size)[7] == 3 && WindowAckMessage(size)[7] == 5 && SetChunkSizeMessage(size)[7] == 1
    ensures ReadBe32(AckMessage(size)[12..]) == size % TWO32
  {
    Be32RoundTrip(size);
    assert Be32(0)[1..] == [0, 0, 0];
    assert Be32(4)[1..] == [0, 0, 4];
    assert Le32(0) == [0, 0, 0, 0];
  }

  /** setPeerBandwidth writes 17 bytes: type 6, length 5, the size big-endian and the
      limit type byte. */
  lemma PeerBandwidthLayout(size: nat, limitType: nat)
    ensures |PeerBandwidthMessage(size, limitType)| == 17
    ensures IsProtocolControl(PeerBandwidthMessage(size, limitType), TYPE_SET_PEER_BANDWIDTH,
                              Be32(size) + [limitType % 256])
    ensures ReadBe32(PeerBandwidthMessage(size, limitType)[12..16]) == size % TWO32
    ensures PeerBandwidthMessage(size, limitType)[16] == limitType % 256
  {
    Be32RoundTrip(size);
    assert Be32(0)[1..] == [0, 0, 0];
    assert Be32(5)[1..] == [0, 0, 5];
    assert Le32(0) == [0, 0, 0, 0];
    assert PeerBandwidthMessage(size, limitType)[12..16] == Be32(size);
  }
}
