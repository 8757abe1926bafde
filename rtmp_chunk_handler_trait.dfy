/** RtmpChunkHandlerTrait on the session: the header phase of `onChunkData` and
    the writers of the protocol control messages. The header phase peeks at the
    first byte of a chunk to learn its header length, waits until the whole
    header is buffered, then reads the basic header and selects (or creates) the
    chunk stream's context. The payload phase (`onPacketHandler`) is not part of
    this model, so a call stops in CHUNK_STATE_CHUNK_READY. */
module RtmpChunkHandlerTrait {
  import opened Bytes
  import opened RtmpTypes
  import opened RtmpConstants
  import opened RtmpChunkCodec
  import opened RtmpSession

  /** What one call of the header phase leaves behind and how many bytes it consumed. */
  datatype ChunkPhase = ChunkPhase(
    state: int, chunkHeaderLen: nat, packets: map<nat, ChunkContext>, current: Option<nat>, consumed: nat)

  /** The context of chunk stream `h.csId` after a basic header `h` arrived with the
      announced header length `headerLen`: created on first sight, otherwise reused
      (keeping its id and its base header length); it takes the new format, the header
      lengths, and the state the payload phase starts in. The base header length of a
      new context is the size of the basic header just read (see `BaseHeaderLenAsWritten`
      for the expression in the code). */
  function SelectContext(packets: map<nat, ChunkContext>, h: BasicHeaderFields, headerLen: nat): (c: ChunkContext)
    ensures c.chunkType == h.fmt && c.chunkHeaderLen == headerLen
    ensures h.csId in packets ==> c.chunkStreamId == packets[h.csId].chunkStreamId
                                  && c.baseHeaderLen == packets[h.csId].baseHeaderLen
    ensures h.csId !in packets ==> c.chunkStreamId == h.csId && c.baseHeaderLen == h.size
    ensures c.msgHeaderLen == headerLen - c.baseHeaderLen
    ensures c.state == (if h.fmt == CHUNK_TYPE_3 then PACKET_STATE_EXT_TIMESTAMP else PACKET_STATE_MSG_HEADER)
  {
    var base := if h.csId in packets then packets[h.csId] else ChunkContext(h.csId, h.size, 0, 0, 0, 0);
    base.(chunkType := h.fmt,
          chunkHeaderLen := headerLen,
          msgHeaderLen := headerLen - base.baseHeaderLen,
          state := if h.fmt == CHUNK_TYPE_3 then PACKET_STATE_EXT_TIMESTAMP else PACKET_STATE_MSG_HEADER)
  }

  /** The header phase of `onChunkData` from decoder state `state` on the unread bytes
      `input`. BEGIN peeks at one byte and falls through to HEADER_READY; HEADER_READY
      waits for `chunkHeaderLen` bytes and then consumes only the basic header. */
  function ChunkHeaderPhase(state: int, chunkHeaderLen: nat, packets: map<nat, ChunkContext>,
                            current: Option<nat>, input: seq<byte>): (r: ChunkPhase)
    requires ChunkDecoderState(state) && HeaderPending(state, chunkHeaderLen, input)
    ensures r.consumed <= |input| && ChunkDecoderState(r.state)
    ensures r.consumed > 0 <==> r.state == CHUNK_STATE_CHUNK_READY && state != CHUNK_STATE_CHUNK_READY
    decreases CHUNK_STATE_CHUNK_READY - state
  {
    if state == CHUNK_STATE_BEGIN then
      if |input| >= 1 then
        ChunkHeaderPhase(CHUNK_STATE_HEADER_READY, ChunkHeaderLenOf(input[0]), packets, current, input)
      else ChunkPhase(state, chunkHeaderLen, packets, current, 0)
    else if state == CHUNK_STATE_HEADER_READY then
      if |input| >= chunkHeaderLen then
        var h := DecodeBasicHeader(input).value;
        var ctx := SelectContext(packets, h, chunkHeaderLen);
        ChunkPhase(CHUNK_STATE_CHUNK_READY, chunkHeaderLen, packets[h.csId := ctx], Some(h.csId), h.size)
      else ChunkPhase(state, chunkHeaderLen, packets, current, 0)
    else
      ChunkPhase(state, chunkHeaderLen, packets, current, 0)
  }

  /** The header phase of onChunkData on the session's buffer. */
  method OnChunkData(s: Session)
    requires s.readPos <= |s.buffer|
    requires ChunkDecoderState(s.chunkState) && HeaderPending(s.chunkState, s.chunkHeaderLen, s.buffer[s.readPos..])
    modifies s`chunkState, s`chunkHeaderLen, s`allPackets, s`currentPacket, s`readPos
    ensures var r := ChunkHeaderPhase(old(s.chunkState), old(s.chunkHeaderLen), old(s.allPackets),
                                      old(s.currentPacket), s.buffer[old(s.readPos)..]);
      && s.chunkState == r.state && s.chunkHeaderLen == r.chunkHeaderLen
      && s.allPackets == r.packets && s.currentPacket == r.current
      && s.readPos == old(s.readPos) + r.consumed
    ensures HeaderPending(s.chunkState, s.chunkHeaderLen, s.buffer[s.readPos..])
  {
    ghost var input := s.buffer[s.readPos..];
    ghost var state0, len0 := s.chunkState, s.chunkHeaderLen;
    if s.chunkState == CHUNK_STATE_BEGIN && s.Has(1) {
      // tag(), readTinyInt(), rollBack(): the byte is looked at, not consumed
      var header := s.buffer[s.readPos];
      var len := BaseHeaderSizeAt(header % 64);
      len := len + MsgHeaderSize(header / 64);
      s.chunkHeaderLen := len;
      s.chunkState := CHUNK_STATE_HEADER_READY;
    }
    PeekStage(state0, len0, s.allPackets, s.currentPacket, input);
    ReadStage(s.chunkState, s.chunkHeaderLen, s.allPackets, s.currentPacket, input);
    if s.chunkState == CHUNK_STATE_HEADER_READY && s.Has(s.chunkHeaderLen) {
      ghost var packets0 := s.allPackets;
      var fmt, csId, size := ReadBasicHeader(s);
      var p: ChunkContext;
      if csId !in s.allPackets {
        p := ChunkContext(csId, size, 0, 0, 0, 0);
      } else {
        p := s.allPackets[csId];
      }
      p := p.(chunkType := fmt);
      p := p.(chunkHeaderLen := s.chunkHeaderLen);
      p := p.(msgHeaderLen := p.chunkHeaderLen - p.baseHeaderLen);
      s.currentPacket := Some(csId);
      s.chunkState := CHUNK_STATE_CHUNK_READY;
      if p.chunkType == CHUNK_TYPE_3 {
        p := p.(state := PACKET_STATE_EXT_TIMESTAMP);
      } else {
        p := p.(state := PACKET_STATE_MSG_HEADER);
      }
      assert p == SelectContext(packets0, BasicHeaderFields(fmt, csId, size), s.chunkHeaderLen);
      s.allPackets := s.allPackets[csId := p];
    }
  }

  /** After the header phase a peeked header is still unread: the decoder never
      waits in HEADER_READY having consumed the byte it computed the length from. */
  lemma ChunkHeaderPhaseKeepsPending(state: int, len: nat, packets: map<nat, ChunkContext>,
                                     current: Option<nat>, input: seq<byte>)
    requires ChunkDecoderState(state) && HeaderPending(state, len, input)
    ensures var r := ChunkHeaderPhase(state, len, packets, current, input);
      HeaderPending(r.state, r.chunkHeaderLen, input[r.consumed..])
  {
    PeekStage(state, len, packets, current, input);
    var go := state == CHUNK_STATE_BEGIN && |input| >= 1;
    var state' := if go then CHUNK_STATE_HEADER_READY else state;
    var len' := if go then ChunkHeaderLenOf(input[0]) else len;
    ReadStage(state', len', packets, current, input);
  }

  /** The BEGIN stage: peeking at the first byte moves to HEADER_READY with the
      announced header length, which is what the phase does next anyway. */
  lemma PeekStage(state: int, len: nat, packets: map<nat, ChunkContext>, current: Option<nat>, input: seq<byte>)
    requires ChunkDecoderState(state) && HeaderPending(state, len, input)
    ensures var go := state == CHUNK_STATE_BEGIN && |input| >= 1;
      var state' := if go then CHUNK_STATE_HEADER_READY else state;
      var len' := if go then ChunkHeaderLenOf(input[0]) else len;
      HeaderPending(state', len', input)
      && ChunkHeaderPhase(state, len, packets, current, input) == ChunkHeaderPhase(state', len', packets, current, input)
  {
  }

  /** The HEADER_READY stage: with the whole header buffered the basic header decodes
      and its context is selected; otherwise nothing happens. */
  lemma ReadStage(state: int, len: nat, packets: map<nat, ChunkContext>, current: Option<nat>, input: seq<byte>)
    requires ChunkDecoderState(state) && HeaderPending(state, len, input)
    ensures var go := state == CHUNK_STATE_HEADER_READY && |input| >= len;
      var r := ChunkHeaderPhase(state, len, packets, current, input);
      (go ==> DecodeBasicHeader(input).Some?
              && var h := DecodeBasicHeader(input).value;
                 r == ChunkPhase(CHUNK_STATE_CHUNK_READY, len, packets[h.csId := SelectContext(packets, h, len)],
                                 Some(h.csId), h.size))
      && (!go && state != CHUNK_STATE_BEGIN ==> r == ChunkPhase(state, len, packets, current, 0))
  {
  }

  /** Reads the basic header at the read position (`readTinyInt`, then `readTinyInt` or
      `readInt16LE` for the escaped ids) and returns its format, chunk stream id and size. */
  method ReadBasicHeader(s: Session) returns (fmt: nat, csId: nat, size: nat)
    requires s.readPos <= |s.buffer| && DecodeBasicHeader(s.buffer[s.readPos..]).Some?
    modifies s`readPos
    ensures DecodeBasicHeader(s.buffer[old(s.readPos)..]) == Some(BasicHeaderFields(fmt, csId, size))
    ensures s.readPos == old(s.readPos) + size
  {
    ghost var unread := s.buffer[s.readPos..];
    var header := s.buffer[s.readPos];
    s.readPos := s.readPos + 1;
    fmt := header / 64;
    csId := header % 64;
    size := 1;
    if csId == 0 {
      csId := s.buffer[s.readPos] as nat + 64;
      s.readPos := s.readPos + 1;
      size := 2;
    } else if csId == 1 {
      assert unread[1..3] == s.buffer[s.readPos..s.readPos + 2];
      csId := 64 + ReadLe16(s.buffer[s.readPos..s.readPos + 2]);
      s.readPos := s.readPos + 2;
      size := 3;
    }
  }

  // ------------------------------------------------------------------ properties

  /** BEGIN with a byte buffered but the header not yet complete: the header length is
      computed from the peeked byte and nothing is consumed. */
  lemma ChunkPeekConsumesNothing(chunkHeaderLen: nat, packets: map<nat, ChunkContext>, current: Option<nat>, input: seq<byte>)
    requires |input| >= 1 && |input| < ChunkHeaderLenOf(input[0])
    ensures ChunkHeaderPhase(CHUNK_STATE_BEGIN, chunkHeaderLen, packets, current, input)
            == ChunkPhase(CHUNK_STATE_HEADER_READY, ChunkHeaderLenOf(input[0]), packets, current, 0)
  {
  }

  /** HEADER_READY waits without consuming anything until the whole header is buffered. */
  lemma ChunkHeaderWaits(chunkHeaderLen: nat, packets: map<nat, ChunkContext>, current: Option<nat>, input: seq<byte>)
    requires HeaderPending(CHUNK_STATE_HEADER_READY, chunkHeaderLen, input) && |input| < chunkHeaderLen
    ensures ChunkHeaderPhase(CHUNK_STATE_HEADER_READY, chunkHeaderLen, packets, current, input)
            == ChunkPhase(CHUNK_STATE_HEADER_READY, chunkHeaderLen, packets, current, 0)
  {
  }

  /** Once the whole header is buffered, the phase consumes exactly the basic header,
      makes the chunk stream of that header current with the new format, adds its
      context if it was new, and leaves every other context as it was. */
  lemma ChunkHeaderSelectsContext(state: int, chunkHeaderLen: nat, packets: map<nat, ChunkContext>,
                                  current: Option<nat>, input: seq<byte>)
    requires state == CHUNK_STATE_BEGIN || state == CHUNK_STATE_HEADER_READY
    requires HeaderPending(state, chunkHeaderLen, input) && |input| >= 1
    requires |input| >= ChunkHeaderLenOf(input[0])
    ensures var r := ChunkHeaderPhase(state, chunkHeaderLen, packets, current, input);
      var h := DecodeBasicHeader(input);
      && h.Some?
      && r.state == CHUNK_STATE_CHUNK_READY
      && r.chunkHeaderLen == ChunkHeaderLenOf(input[0])
      && r.consumed == h.value.size == BaseHeaderSizeAt(input[0] % 64)
      && r.current == Some(h.value.csId)
      && r.packets.Keys == packets.Keys + {h.value.csId}
      && (forall id :: id in packets && id != h.value.csId ==> r.packets[id] == packets[id])
      && r.packets[h.value.csId].chunkType == h.value.fmt == input[0] / 64
      && (h.value.csId in packets ==> r.packets[h.value.csId].chunkStreamId == packets[h.value.csId].chunkStreamId
                                      && r.packets[h.value.csId].baseHeaderLen == packets[h.value.csId].baseHeaderLen)
      && r.packets[h.value.csId].state
         == (if h.value.fmt == CHUNK_TYPE_3 then PACKET_STATE_EXT_TIMESTAMP else PACKET_STATE_MSG_HEADER)
  {
  }

  /** Every context is stored under its own chunk stream id, and the current packet,
      when there is one, is one of them. */
  predicate ContextsKeyed(packets: map<nat, ChunkContext>, current: Option<nat>) {
    && (forall id :: id in packets ==> packets[id].chunkStreamId == id)
    && (current.Some? ==> current.value in packets)
  }

  /** The header phase keeps the contexts keyed by their ids. */
  lemma ChunkHeaderPhaseKeepsContextsKeyed(state: int, chunkHeaderLen: nat, packets: map<nat, ChunkContext>,
                                           current: Option<nat>, input: seq<byte>)
    requires ChunkDecoderState(state) && HeaderPending(state, chunkHeaderLen, input)
    requires ContextsKeyed(packets, current)
    ensures var r := ChunkHeaderPhase(state, chunkHeaderLen, packets, current, input);
      ContextsKeyed(r.packets, r.current)
  {
  }

  /** A context created by the header phase records the basic and message header
      lengths of the chunk that created it: its message header length is the size of
      that chunk's format (11, 7, 3 or 0 bytes). This is the intended behaviour of
      lines 86-107; `NewContextLengthsAsWritten` states what line 90 as written stores. */
  lemma NewContextHeaderLengths(state: int, chunkHeaderLen: nat, packets: map<nat, ChunkContext>,
                                current: Option<nat>, input: seq<byte>)
    requires state == CHUNK_STATE_BEGIN || state == CHUNK_STATE_HEADER_READY
    requires HeaderPending(state, chunkHeaderLen, input) && |input| >= 1
    requires |input| >= ChunkHeaderLenOf(input[0])
    requires DecodeBasicHeader(input).Some? && DecodeBasicHeader(input).value.csId !in packets
    ensures var r := ChunkHeaderPhase(state, chunkHeaderLen, packets, current, input);
      var h := DecodeBasicHeader(input).value;
      r.packets[h.csId].baseHeaderLen == h.size
      && r.packets[h.csId].msgHeaderLen == MsgHeaderSize(h.fmt)
  {
    ChunkHeaderSelectsContext(state, chunkHeaderLen, packets, current, input);
  }

  /** The base header length exactly as line 90 computes it: the header-size table
      indexed by the decoded chunk stream id instead of the low six bits of the
      first byte. Decoded ids are never 0 or 1, so the result is always 1. */
  function BaseHeaderLenAsWritten(csId: nat): (r: nat)
    ensures csId >= 2 ==> r == 1
  {
    BaseHeaderSizeAt(csId)
  }

  /** The message header length a new context would get with `BaseHeaderLenAsWritten`. */
  function MsgHeaderLenAsWritten(input: seq<byte>): (r: int)
    requires |input| >= 1 && DecodeBasicHeader(input).Some?
  {
    ChunkHeaderLenOf(input[0]) - BaseHeaderLenAsWritten(DecodeBasicHeader(input).value.csId)
  }

  /** The discrepancy: a format-0 chunk on chunk stream 64 (first bytes 0x00 0x00) has
      a 2-byte basic header and an 11-byte message header, but the expression as
      written records a message header length of 12; with a 3-byte basic header
      (first bytes 0x01 ...) it records 13. */
  lemma MsgHeaderLenAsWrittenIsOff()
    ensures var input: seq<byte> := [0x00, 0x00];
      DecodeBasicHeader(input) == Some(BasicHeaderFields(0, 64, 2))
      && MsgHeaderLenAsWritten(input) == 12 && MsgHeaderSize(0) == 11
    ensures var input: seq<byte> := [0x01, 0x00, 0x01];
      DecodeBasicHeader(input) == Some(BasicHeaderFields(0, 320, 3))
      && MsgHeaderLenAsWritten(input) == 13
  {
    var a: seq<byte> := [0x00, 0x00];
    assert a[0] % 64 == 0 && a[0] / 64 == 0;
    var b: seq<byte> := [0x01, 0x00, 0x01];
    assert b[1..3] == [0x00, 0x01];
    assert ReadLe16(b[1..3]) == 256;
  }

  /** The context lines 83-122 select as written: the same as `SelectContext`, except
      that a new context gets `BaseHeaderLenAsWritten(h.csId)` as its base header length. */
  function SelectContextAsWritten(packets: map<nat, ChunkContext>, h: BasicHeaderFields, headerLen: nat): ChunkContext {
    var base := if h.csId in packets then packets[h.csId]
                else ChunkContext(h.csId, BaseHeaderLenAsWritten(h.csId), 0, 0, 0, 0);
    base.(chunkType := h.fmt,
          chunkHeaderLen := headerLen,
          msgHeaderLen := headerLen - base.baseHeaderLen,
          state := if h.fmt == CHUNK_TYPE_3 then PACKET_STATE_EXT_TIMESTAMP else PACKET_STATE_MSG_HEADER)
  }

  /** For every decodable chunk header: a context the code as written creates records a
      base header length of 1 and a message header length of the format's size plus the
      basic header's size minus 1. It agrees with `SelectContext` exactly when the basic
      header is one byte, that is, for chunk stream ids below 64; contexts that already
      exist are treated the same by both. */
  lemma NewContextLengthsAsWritten(packets: map<nat, ChunkContext>, input: seq<byte>)
    requires DecodeBasicHeader(input).Some?
    ensures var h := DecodeBasicHeader(input).value;
      var len := ChunkHeaderLenOf(input[0]);
      var written := SelectContextAsWritten(packets, h, len);
      && (h.csId in packets ==> written == SelectContext(packets, h, len))
      && (h.csId !in packets ==>
            && written.baseHeaderLen == 1
            && written.msgHeaderLen == MsgHeaderSize(h.fmt) + h.size - 1
            && (written == SelectContext(packets, h, len) <==> h.size == 1)
            && (h.size == 1 <==> h.csId < 64))
  {
  }

  // ------------------------------------------------- protocol control message writers

  /** sendACK */
  method SendAck(s: Session, size: nat)
    modifies s`output
    ensures s.output == old(s.output) + [Raw(AckMessage(size))]
  {
    var buf := ACK_TEMPLATE;
    buf := SubstrReplaceFrom(buf, Be32(size), 12);
    s.output := s.output + [Raw(buf)];
  }

  /** sendWindowACK */
  method SendWindowAck(s: Session, size: nat)
    modifies s`output
    ensures s.output == old(s.output) + [Raw(WindowAckMessage(size))]
  {
    var buf := WINDOW_ACK_TEMPLATE;
    buf := SubstrReplaceFrom(buf, Be32(size), 12);
    s.output := s.output + [Raw(buf)];
  }

  /** setPeerBandwidth */
  method SetPeerBandwidth(s: Session, size: nat, limitType: nat)
    modifies s`output
    ensures s.output == old(s.output) + [Raw(PeerBandwidthMessage(size, limitType))]
  {
    var buf := PEER_BANDWIDTH_TEMPLATE;
    buf := SubstrReplaceFrom(buf, Be32(size) + [limitType % 256], 12);
    s.output := s.output + [Raw(buf)];
  }

  /** setChunkSize */
  method SetChunkSize(s: Session, size: nat)
    modifies s`output
    ensures s.output == old(s.output) + [Raw(SetChunkSizeMessage(size))]
  {
    var buf := SET_CHUNK_SIZE_TEMPLATE;
    buf := SubstrReplaceFrom(buf, Be32(size), 12);
    s.output := s.output + [Raw(buf)];
  }
}
