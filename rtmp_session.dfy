/** The state of one RTMP connection (the fields of `RtmpStream`) and the
    server-wide publish/play registry it consults. Every field of `RtmpStream`
    that the modelled handlers read or write is a field of `Session`; the
    handlers themselves live in one module per trait and update the fields
    they name in their `modifies` clauses.

    Conventions:
    - The receive buffer (`WMBufferStream`) is `buffer` with the read pointer
      `readPos`; the network only ever appends to `buffer`.
    - Every `write()` appends one `Outgoing` to `output`; every `emit()`
      appends one `Event` to `events`.
    - A timer handle is a `nat` with 0 standing for null, which is also how
      PHP's truthiness tests treat it. */
module RtmpSession {
  import opened Bytes
  import opened RtmpTypes
  import opened RtmpConstants
  import opened RtmpHandshake

  /** The fields of the per-chunk-stream `RtmpPacket` that the header phase of
      `onChunkData` sets. `msgHeaderLen` is an int because it is a difference. */
  datatype ChunkContext = ChunkContext(
    chunkStreamId: nat,
    baseHeaderLen: nat,
    chunkType: nat,
    chunkHeaderLen: nat,
    msgHeaderLen: int,
    state: int)

  /** `BASE_HEADER_SIZES[$header & 0x3f] ?? 1` plus `MSG_HEADER_SIZES[$header >> 6]`:
      the full chunk header length announced by the first byte of a chunk. */
  function ChunkHeaderLenOf(first: byte): (r: nat)
    ensures 1 <= r <= 14
  {
    BaseHeaderSizeAt(first % 64) + MsgHeaderSize(first / 64)
  }

  /** While the decoder waits in HEADER_READY, the unread bytes still start with the
      byte whose header length it computed: the first byte was only peeked at. */
  predicate HeaderPending(chunkState: int, chunkHeaderLen: nat, unread: seq<byte>) {
    chunkState == CHUNK_STATE_HEADER_READY ==> |unread| >= 1 && chunkHeaderLen == ChunkHeaderLenOf(unread[0])
  }

  /** The chunk decoder states the header phase handles. */
  predicate ChunkDecoderState(chunkState: int) {
    CHUNK_STATE_BEGIN <= chunkState <= CHUNK_STATE_CHUNK_READY
  }

  /** The ceiling at which the received-byte counter starts over. */
  const ACK_COUNTER_LIMIT: nat := 0xf000_0000

  class Session {
    const id: string

    // handshake and chunk decoding
    var handshakeState: int
    var chunkHeaderLen: nat
    var chunkState: int
    var allPackets: map<nat, ChunkContext>
    var currentPacket: Option<nat>
    var inChunkSize: nat
    var outChunkSize: nat

    // connection
    var startTimestamp: Option<nat>
    var objectEncoding: int
    var streams: nat
    var isStarting: bool
    var connectCmdObj: Option<ConnectObject>
    var appName: string
    var pingTimer: nat
    var bitrateCache: Option<BitrateCache>

    // play and publish
    var playStreamId: nat
    var playStreamPath: string
    var playArgs: string
    var isReceiveAudio: bool
    var isReceiveVideo: bool
    var publishStreamPath: string
    var publishArgs: string
    var publishStreamId: nat
    var isPublishing: bool
    var isPlaying: bool

    // acknowledgement window
    var ackSize: nat
    var inAckSize: nat
    var inLastAck: nat

    // media
    var isMetaData: bool
    var metaDataFrame: Option<MetaDataFrame>
    var videoWidth: nat
    var videoHeight: nat
    var videoFps: nat
    var videoCount: nat
    var videoFpsCountTimer: nat
    var videoProfileName: string
    var videoLevel: nat
    var videoCodec: nat
    var videoCodecName: string
    var isAVCSequence: bool
    var avcSequenceHeaderFrame: Option<VideoFrame>
    var audioSamplerate: nat
    var audioChannels: nat
    var enableGop: bool
    var gopCacheQueue: seq<VideoFrame>

    // transport and statistics
    var buffer: seq<byte>
    var readPos: nat
    var dataCountTimer: nat
    var frameCount: nat
    var output: seq<Outgoing>
    var events: seq<Event>

    /** The invariants every handler keeps: the read pointer stays inside the buffer,
        the handshake state is one of the four states, once the handshake is done the
        chunk decoder is in one of its states (and a peeked header is still unread),
        the ack counters satisfy 0 <= inLastAck <= inAckSize < 0xf0000000, and the
        outgoing chunk size is positive. */
    ghost predicate Valid()
      reads this
    {
      && readPos <= |buffer|
      && RTMP_HANDSHAKE_UNINIT <= handshakeState <= RTMP_HANDSHAKE_C2
      && (handshakeState == RTMP_HANDSHAKE_C2 ==>
            ChunkDecoderState(chunkState) && HeaderPending(chunkState, chunkHeaderLen, buffer[readPos..]))
      && inLastAck <= inAckSize < ACK_COUNTER_LIMIT
      && outChunkSize > 0
    }

    /** `new RtmpStream($bufferStream)` with the field initialisers of the class; the
        session id and the data-count timer handle are what `generateNewSessionID()`
        and `Timer::add` returned. */
    constructor(sessionId: string, countTimer: nat)
      ensures Valid()
      ensures id == sessionId && dataCountTimer == countTimer
      ensures handshakeState == RTMP_HANDSHAKE_UNINIT && isStarting
      ensures inChunkSize == 128 && outChunkSize == 60000
      ensures chunkHeaderLen == 0 && chunkState == CHUNK_STATE_UNSET
      ensures allPackets == map[] && currentPacket == None
      ensures ackSize == 0 && inAckSize == 0 && inLastAck == 0
      ensures startTimestamp == None && objectEncoding == 0 && streams == 0
      ensures connectCmdObj == None && appName == "" && pingTimer == 0 && bitrateCache == None
      ensures playStreamId == 0 && playStreamPath == "" && playArgs == ""
      ensures isReceiveAudio && isReceiveVideo
      ensures publishStreamPath == "" && publishArgs == "" && publishStreamId == 0
      ensures !isPublishing && !isPlaying
      ensures !isMetaData && metaDataFrame == None
      ensures videoWidth == 0 && videoHeight == 0 && videoFps == 0 && videoCount == 0
      ensures videoFpsCountTimer == 0 && videoProfileName == "" && videoLevel == 0
      ensures videoCodec == 0 && videoCodecName == "" && !isAVCSequence && avcSequenceHeaderFrame == None
      ensures audioSamplerate == 0 && audioChannels == 1 && enableGop && gopCacheQueue == []
      ensures buffer == [] && readPos == 0 && frameCount == 0 && output == [] && events == []
    {
      id := sessionId;
      handshakeState := RTMP_HANDSHAKE_UNINIT;
      chunkHeaderLen := 0;
      chunkState := CHUNK_STATE_UNSET;
      allPackets := map[];
      currentPacket := None;
      inChunkSize := 128;
      outChunkSize := 60000;
      startTimestamp := None;
      objectEncoding := 0;
      streams := 0;
      isStarting := true;
      connectCmdObj := None;
      appName := "";
      pingTimer := 0;
      bitrateCache := None;
      playStreamId := 0;
      playStreamPath := "";
      playArgs := "";
      isReceiveAudio := true;
      isReceiveVideo := true;
      publishStreamPath := "";
      publishArgs := "";
      publishStreamId := 0;
      isPublishing := false;
      isPlaying := false;
      ackSize := 0;
      inAckSize := 0;
      inLastAck := 0;
      isMetaData := false;
      metaDataFrame := None;
      videoWidth := 0;
      videoHeight := 0;
      videoFps := 0;
      videoCount := 0;
      videoFpsCountTimer := 0;
      videoProfileName := "";
      videoLevel := 0;
      videoCodec := 0;
      videoCodecName := "";
      isAVCSequence := false;
      avcSequenceHeaderFrame := None;
      audioSamplerate := 0;
      audioChannels := 1;
      enableGop := true;
      gopCacheQueue := [];
      buffer := [];
      readPos := 0;
      dataCountTimer := countTimer;
      frameCount := 0;
      output := [];
      events := [];
    }

    /** `$stream->has($n)` */
    predicate Has(n: nat)
      reads this
      requires readPos <= |buffer|
    {
      |buffer| - readPos >= n
    }

    /** The transport appends what arrived from the network to the buffer. */
    method Receive(bytes: seq<byte>)
      requires Valid()
      modifies this`buffer
      ensures buffer == old(buffer) + bytes
      ensures Valid()
    {
      assert buffer[readPos..] + bytes == (buffer + bytes)[readPos..];
      buffer := buffer + bytes;
    }
  }

  /** The publish/play registry of `MediaServer`: the session id that publishes each
      path, and the session ids that play each path in the order they joined. */
  class MediaRegistry {
    var publishers: map<string, string>
    var players: map<string, seq<string>>

    constructor()
      ensures publishers == map[] && players == map[]
    {
      publishers := map[];
      players := map[];
    }
  }

  /** `MediaServer::addPlayer`: the id joins the players of the path. */
  function AddPlayer(players: map<string, seq<string>>, path: string, id: string): (r: map<string, seq<string>>)
    ensures path in r && r[path] == (if path in players then players[path] else []) + [id]
    ensures forall q :: q in players && q != path ==> q in r && r[q] == players[q]
    ensures r.Keys == players.Keys + {path}
  {
    players[path := (if path in players then players[path] else []) + [id]]
  }
}
