/** The constants of the classes RtmpChunk and RtmpPacket, which the RTMP core
    refers to but which are not part of this model. The values follow the
    Adobe RTMP specification (message type ids of sections 5.4, 6.2 and 7.1,
    chunk formats of section 5.3.1.2, the 24-bit timestamp ceiling of section
    5.3.1.3); the lookup tables are the ones the code indexes
    (`BASE_HEADER_SIZES[i] ?? 1`, `MSG_HEADER_SIZES[fmt]`). The state ids only
    need to be distinct. */
module RtmpConstants {

  // message type ids
  const TYPE_SET_CHUNK_SIZE: nat := 1
  const TYPE_ABORT: nat := 2
  const TYPE_ACKNOWLEDGEMENT: nat := 3
  const TYPE_EVENT: nat := 4
  const TYPE_WINDOW_ACKNOWLEDGEMENT_SIZE: nat := 5
  const TYPE_SET_PEER_BANDWIDTH: nat := 6
  const TYPE_AUDIO: nat := 8
  const TYPE_VIDEO: nat := 9
  const TYPE_FLEX_STREAM: nat := 15
  const TYPE_FLEX_MESSAGE: nat := 17
  const TYPE_DATA: nat := 18
  const TYPE_INVOKE: nat := 20

  // chunk message-header formats
  const CHUNK_TYPE_0: nat := 0
  const CHUNK_TYPE_1: nat := 1
  const CHUNK_TYPE_2: nat := 2
  const CHUNK_TYPE_3: nat := 3

  /** Timestamps at or above this value are sent in the extended-timestamp field. */
  const MAX_TIMESTAMP: nat := 0xFF_FFFF

  /** The chunk stream id of protocol control messages. */
  const CHANNEL_PROTOCOL: nat := 2

  /** User control event "Stream Begin". */
  const STREAM_BEGIN: nat := 0

  // decoder states of the session (`chunkState`); UNSET stands for the
  // typed property PHP leaves uninitialised until the handshake completes
  const CHUNK_STATE_UNSET: int := -1
  const CHUNK_STATE_BEGIN: int := 0
  const CHUNK_STATE_HEADER_READY: int := 1
  const CHUNK_STATE_CHUNK_READY: int := 2

  // per-packet decoder states (`RtmpPacket::state`)
  const PACKET_STATE_MSG_HEADER: int := 1
  const PACKET_STATE_EXT_TIMESTAMP: int := 2

  /** `BASE_HEADER_SIZES[i] ?? 1`: the table holds only the entries 0 and 1. */
  function BaseHeaderSizeAt(i: int): (r: nat)
    ensures 1 <= r <= 3
    ensures r == 1 <==> i != 0 && i != 1
  {
    if i == 0 then 2 else if i == 1 then 3 else 1
  }

  /** `MSG_HEADER_SIZES[fmt]` */
  function MsgHeaderSize(fmt: nat): (r: nat)
    requires fmt < 4
    ensures r <= 11
    ensures fmt < 3 <==> r > 0
  {
    if fmt == 0 then 11 else if fmt == 1 then 7 else if fmt == 2 then 3 else 0
  }
}
