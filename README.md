# php_rtmp session engine in Dafny

This project models the server side of one RTMP connection in php_rtmp, from the
first handshake byte up to the media bookkeeping of a publishing session:

- the plain (non-digest) handshake of section 5.2 of the Adobe RTMP
  specification: the S0/S1/S2 byte builders and the `onHandShake` state machine
  over the receive buffer;
- the chunk format of section 5.3, with these parts:
  - basic header and message header encoders;
  - reference decoders that read the headers back;
  - `rtmpChunksCreate`, which splits a message into chunks;
  - the fixed layouts of the protocol control messages of section 5.4;
  - the header phase of `onChunkData`;
- the inbound side of `RtmpStream`:
  - `onStreamData`: the handshake first, the chunk decoder afterwards;
  - the acknowledgement window;
  - the protocol control handler;
  - the message-type dispatch and the `stop()` teardown;
- the command state machine of `RtmpInvokeHandlerTrait`:
  - `connect`, `createStream`, `publish` and `play`;
  - their reply sequences and status messages;
  - publish and play run over an abstract registry of publishers and players, and an abstract authorisation outcome;
- the `@setDataFrame` metadata merge;
- video bookkeeping: the codec latch, the frame counter, the AVC sequence header and the group-of-pictures (GOP) cache;
- `AVCPacket`: the header parse of FLV file format specification v10, Annex E (E.4.3.1), and the memoised sequence parameter set.

One connection is the class `RtmpSession.Session`. Its fields are those of
`RtmpStream`. Each trait method of the PHP code is a module-level method on that
class. A method's `modifies` clause names the fields it writes. Its contract then
states the new values. Wherever the logic is more than a few assignments, the
contract ties the new state to a pure function. Examples:
- `HandshakeRun` for the handshake;
- `ChunkHeaderPhase` for the chunk header phase;
- `StreamData` for `onStreamData`;
- `GopStep` for the video cache;
- `MergeMetadata` for the metadata merge.

Lemmas state the properties of those functions.

What goes over the wire is recorded in `s.output`:
- messages whose bytes the code builds itself are kept as raw bytes;
- AMF0-encoded commands are kept as records.

Events passed to `emit` are recorded in `s.events`.

The following become parameters:
- the clock, the random block of S1 and the timer handles;
- the parser of the sequence parameter set and the codec-name table;
- the result of `verifyAuth`.

Module by source file:

| module | source |
|---|---|
| `Bytes` | `pack`/`unpack` layouts used throughout |
| `RtmpConstants` | constants of `RtmpChunk`/`RtmpPacket` (not shown in the source), values from the RTMP specification |
| `RtmpTypes`, `RtmpSession` | the fields of `src/Rtmp/RtmpStream.php`, the registry of `MediaServer` |
| `RtmpHandshake` | `src/Rtmp/RtmpHandshake.php` |
| `RtmpHandshakeTrait` | `src/Rtmp/RtmpHandshakeTrait.php` |
| `RtmpChunkCodec`, `RtmpChunkHandlerTrait` | `src/Rtmp/RtmpChunkHandlerTrait.php` |
| `RtmpControlHandlerTrait` | `src/Rtmp/RtmpControlHandlerTrait.php` |
| `RtmpTrait` | `src/Rtmp/RtmpTrait.php` |
| `RtmpInvokeHandlerTrait` | `src/Rtmp/RtmpInvokeHandlerTrait.php` |
| `RtmpDataHandlerTrait` | `src/Rtmp/RtmpDataHandlerTrait.php` |
| `RtmpVideoHandlerTrait` | `src/Rtmp/RtmpVideoHandlerTrait.php` |
| `MediaReader` | `src/MediaReader/AVCPacket.php` |
| `RtmpStream` | `onStreamData` and `onStreamClose` of `src/Rtmp/RtmpStream.php` |

## Model

| member | source | states |
|---|---|---|
| Bytes.Be16 | src/Rtmp/RtmpInvokeHandlerTrait.php:305 | `pack('n')` is two bytes |
| Bytes.Be16RoundTrip | src/Rtmp/RtmpInvokeHandlerTrait.php:305 | reading `pack('n', x)` back big-endian gives x modulo 2^16 |
| Bytes.Be24 | src/Rtmp/RtmpChunkHandlerTrait.php:207 | the low three bytes of `pack('N')` are three bytes |
| Bytes.Be24RoundTrip | src/Rtmp/RtmpChunkHandlerTrait.php:207 | reading the 3-byte field back gives x modulo 2^24 |
| Bytes.Be32 | src/Rtmp/RtmpChunkHandlerTrait.php:153 | `pack('N')` is four bytes |
| Bytes.Be32RoundTrip | src/Rtmp/RtmpControlHandlerTrait.php:26 | `unpack('N')` of `pack('N', x)` gives x modulo 2^32 |
| Bytes.Be32Low | src/Rtmp/RtmpChunkHandlerTrait.php:207 | `substr(pack('N', x), 1, 3)` is the 24-bit big-endian encoding of x |
| Bytes.Le16 | src/Rtmp/RtmpChunkHandlerTrait.php:190 | `pack('S')` on a little-endian host is two bytes |
| Bytes.Le16RoundTrip | src/Rtmp/RtmpChunkHandlerTrait.php:76 | `readInt16LE` of `pack('S', x)` gives x modulo 2^16 |
| Bytes.Le32 | src/Rtmp/RtmpChunkHandlerTrait.php:219 | `pack('L')` on a little-endian host is four bytes |
| Bytes.Le32RoundTrip | src/Rtmp/RtmpChunkHandlerTrait.php:219 | reading `pack('L', x)` back little-endian gives x modulo 2^32 |
| Bytes.ReadBe16 | src/Rtmp/RtmpInvokeHandlerTrait.php:305 | a 16-bit big-endian read is below 2^16 |
| Bytes.ReadBe24 | src/MediaReader/AVCPacket.php:36 | `readInt24` (unsigned) is below 2^24 |
| Bytes.ReadBe32 | src/Rtmp/RtmpControlHandlerTrait.php:26 | `unpack('N')` is below 2^32 |
| Bytes.ReadLe16 | src/Rtmp/RtmpChunkHandlerTrait.php:76 | `readInt16LE` is below 2^16 |
| Bytes.ReadLe32 | src/Rtmp/RtmpChunkHandlerTrait.php:219 | a 32-bit little-endian read is below 2^32 |
| Bytes.ReadBe24Encodes | src/MediaReader/AVCPacket.php:36 | re-encoding three bytes read with `readInt24` gives the same bytes |
| Bytes.ReadBe32Encodes | src/Rtmp/RtmpControlHandlerTrait.php:26 | re-encoding four bytes read with `unpack('N')` gives the same bytes |
| Bytes.PadA | src/Rtmp/RtmpHandshake.php:28-32 | `pack('a<n>', s)` is n bytes: the first n bytes of s, NUL-padded when s is shorter |
| Bytes.Substr | src/Rtmp/RtmpChunkHandlerTrait.php:166 | `substr` returns at most len bytes, exactly the slice when it lies inside the string |
| Bytes.SubstrReplaceFrom | src/Rtmp/RtmpChunkHandlerTrait.php:231 | `substr_replace` without a length keeps the prefix and replaces everything from the offset |
| RtmpConstants.BaseHeaderSizeAt | src/Rtmp/RtmpChunkHandlerTrait.php:43 | `BASE_HEADER_SIZES[i] ?? 1` is 1 exactly for the indices other than 0 and 1, otherwise 2 or 3 |
| RtmpConstants.MsgHeaderSize | src/Rtmp/RtmpChunkHandlerTrait.php:46 | `MSG_HEADER_SIZES[fmt]` is at most 11, and non-zero exactly for formats 0-2 |
| RtmpChunkCodec.BasicHeader | src/Rtmp/RtmpChunkHandlerTrait.php:186-196 | ids below 64: one byte with fmt in the top two bits and the id in the low six; 64-318: two bytes, low bits 0, then id-64; from 319: three bytes, low bits 1, then id-64 little-endian |
| RtmpChunkCodec.FirstByte | src/Rtmp/RtmpChunkHandlerTrait.php:190-194 | `$fmt << 6 \| $low` packed as one byte keeps fmt modulo 4 in the top bits and low in the rest |
| RtmpChunkCodec.DecodeBasicHeader | src/Rtmp/RtmpChunkHandlerTrait.php:63-78 | the decoder succeeds exactly when the header bytes are present; fmt is byte>>6 and the id is at least 2 |
| RtmpChunkCodec.BasicHeaderRoundTrip | src/Rtmp/RtmpChunkHandlerTrait.php:63-78 | decoding an encoded basic header, whatever follows it, gives back fmt and the id, for ids 2-65599 |
| RtmpChunkCodec.LongBasicHeaderDecodes | src/Rtmp/RtmpChunkHandlerTrait.php:73-77 | the three-byte form decodes to its id |
| RtmpChunkCodec.BasicHeaderRoundTripExactly | src/Rtmp/RtmpChunkHandlerTrait.php:186-196 | the round trip holds if and only if the id is in 2-65599 |
| RtmpChunkCodec.MessageHeader | src/Rtmp/RtmpChunkHandlerTrait.php:202-225 | the message header is 11, 7, 3 or 0 bytes for formats 0, 1, 2, 3 |
| RtmpChunkCodec.DecodeMessageHeader | src/Rtmp/RtmpChunkHandlerTrait.php:202-225 | timestamp for formats 0-2, length and type for 0-1, stream id for 0 only |
| RtmpChunkCodec.MessageHeaderRoundTrip | src/Rtmp/RtmpChunkHandlerTrait.php:202-225 | decoding gives back the timestamp capped at MAX_TIMESTAMP, the length modulo 2^24, the type byte and the stream id modulo 2^32, each exactly for the formats that carry it |
| RtmpChunkCodec.ChunkHead | src/Rtmp/RtmpChunkHandlerTrait.php:146-158 | the first header: the basic header, the message header, then the timestamp as 4 bytes when it is at least MAX_TIMESTAMP; its decoding is `ChunkHeadDecodes` |
| RtmpChunkCodec.ChunkSeparator | src/Rtmp/RtmpChunkHandlerTrait.php:147-171 | what goes between two slices: the format-3 basic header, then the extended timestamp when it is in use |
| RtmpChunkCodec.ChunkBody | src/Rtmp/RtmpChunkHandlerTrait.php:160-176 | the loop from a read offset: `min(remain, chunkSize)` bytes by `substr`, the separator while bytes remain; `ChunkBodyIsJoin` and `ChunkBodyLength` state its shape |
| RtmpChunkCodec.ChunkStream | src/Rtmp/RtmpChunkHandlerTrait.php:144-179 | the whole output: head then body; `ChunkStreamRoundTrip` reads it back |
| RtmpChunkCodec.RtmpChunksCreate | src/Rtmp/RtmpChunkHandlerTrait.php:144-179 | the output is the first header followed by the chunk body the loop produces (`ChunkStream`) |
| RtmpChunkCodec.AppendChunks | src/Rtmp/RtmpChunkHandlerTrait.php:160-176 | the `while` loop appends exactly `ChunkBody` from read offset 0 |
| RtmpChunkCodec.ChunkBodyAppend | src/Rtmp/RtmpChunkHandlerTrait.php:162-175 | one loop iteration: a slice of min(remain, chunkSize) bytes, then the separator when bytes remain |
| RtmpChunkCodec.ChunkBodyStep | src/Rtmp/RtmpChunkHandlerTrait.php:162-175 | the body from an offset is one slice, the separator if bytes remain, then the body from the next offset |
| RtmpChunkCodec.SlicesProperties | src/Rtmp/RtmpChunkHandlerTrait.php:160-176 | the slices concatenate to the payload; each is non-empty and at most chunkSize; all but the last are exactly chunkSize |
| RtmpChunkCodec.SliceCount | src/Rtmp/RtmpChunkHandlerTrait.php:162-167 | there are ceil(length / chunkSize) slices |
| RtmpChunkCodec.Slices | src/Rtmp/RtmpChunkHandlerTrait.php:162-167 | the reference cutting of the payload into chunkSize slices, the last possibly shorter; its properties are `SlicesProperties` and `SliceCount` |
| RtmpChunkCodec.Join | src/Rtmp/RtmpChunkHandlerTrait.php:168-174 | the reference layout: slices with a separator between consecutive ones; `ChunkBodyIsJoin` ties the loop to it |
| RtmpChunkCodec.ChunkBodyIsJoin | src/Rtmp/RtmpChunkHandlerTrait.php:160-176 | the loop output is the slices with a separator between consecutive slices and none after the last |
| RtmpChunkCodec.EmptyPayloadOnlyHeader | src/Rtmp/RtmpChunkHandlerTrait.php:154-162 | a zero-length packet yields only its first header |
| RtmpChunkCodec.JoinLength | src/Rtmp/RtmpChunkHandlerTrait.php:168-174 | a join of n slices holds n-1 separators |
| RtmpChunkCodec.ChunkBodyLength | src/Rtmp/RtmpChunkHandlerTrait.php:160-176 | the body is the payload plus ceil(length / chunkSize) - 1 separators |
| RtmpChunkCodec.Dechunk | src/Rtmp/RtmpChunkHandlerTrait.php:160-176 | an independent receiver: chunkSize payload bytes, skip a header, repeat; `DechunkJoin` proves it inverts the loop |
| RtmpChunkCodec.DechunkJoin | src/Rtmp/RtmpChunkHandlerTrait.php:160-176 | a receiver that takes chunkSize bytes and skips each separator recovers the payload |
| RtmpChunkCodec.DechunkJoinSingle | src/Rtmp/RtmpChunkHandlerTrait.php:164-167 | a payload that fits one chunk is recovered |
| RtmpChunkCodec.DechunkJoinStep | src/Rtmp/RtmpChunkHandlerTrait.php:164-174 | a full first slice in front of a tail that reassembles also reassembles |
| RtmpChunkCodec.SlicesCons | src/Rtmp/RtmpChunkHandlerTrait.php:164-167 | slicing a full slice followed by a tail starts with that slice |
| RtmpChunkCodec.JoinCons | src/Rtmp/RtmpChunkHandlerTrait.php:168-174 | one more slice in front adds one separator |
| RtmpChunkCodec.DechunkCons | src/Rtmp/RtmpChunkHandlerTrait.php:164-174 | reassembly takes a full chunk, skips the separator and goes on |
| RtmpChunkCodec.JoinSplit | src/Rtmp/RtmpChunkHandlerTrait.php:166-170 | the positions of slice, separator and tail in a concatenation |
| RtmpChunkCodec.ChunkStreamRoundTrip | src/Rtmp/RtmpChunkHandlerTrait.php:144-179 | a format-0 chunk stream decodes to the chunk stream id, timestamp, length, type and stream id; the extended timestamp follows the header exactly when timestamp >= MAX_TIMESTAMP; the payload comes back |
| RtmpChunkCodec.ChunkHeadDecodes | src/Rtmp/RtmpChunkHandlerTrait.php:146-157 | the first header of a format-0 packet decodes to its fields, with the 4-byte timestamp after it when extended |
| RtmpChunkCodec.HeadParts | src/Rtmp/RtmpChunkHandlerTrait.php:154-157 | the offsets of the header parts in the output |
| RtmpChunkCodec.ProtocolControlDecodes | src/Rtmp/RtmpChunkHandlerTrait.php:228-255 | a protocol control message decodes as chunk stream 2, format 0, its length and type, stream 0, the payload at offset 12 |
| RtmpChunkCodec.ControlMessageLayouts | src/Rtmp/RtmpChunkHandlerTrait.php:228-240 | `sendACK`, `sendWindowACK` and `setChunkSize` write 16 bytes: csid 2, fmt 0, length 4, type 3/5/1 at offset 7, stream 0, the value big-endian at offset 12 |
| RtmpChunkCodec.PeerBandwidthLayout | src/Rtmp/RtmpChunkHandlerTrait.php:242-248 | `setPeerBandwidth` writes 17 bytes: type 6, length 5, the size big-endian at offset 12, the limit type byte at 16 |
| RtmpChunkCodec.AckMessage | src/Rtmp/RtmpChunkHandlerTrait.php:228-233 | `sendACK`: the template with the size big-endian from offset 12; the layout is `ControlMessageLayouts` |
| RtmpChunkCodec.WindowAckMessage | src/Rtmp/RtmpChunkHandlerTrait.php:235-240 | `sendWindowACK`: the same with type 5; the layout is `ControlMessageLayouts` |
| RtmpChunkCodec.PeerBandwidthMessage | src/Rtmp/RtmpChunkHandlerTrait.php:242-248 | `setPeerBandwidth`: the size then the limit type byte from offset 12; the layout is `PeerBandwidthLayout` |
| RtmpChunkCodec.SetChunkSizeMessage | src/Rtmp/RtmpChunkHandlerTrait.php:250-255 | `setChunkSize`: the template of type 1 with the size from offset 12; the layout is `ControlMessageLayouts` |
| RtmpChunkHandlerTrait.SelectContext | src/Rtmp/RtmpChunkHandlerTrait.php:83-122 | the context of the chunk stream is reused (keeping its id and base header length) or created with this id and, as intended, the basic header length actually read; its chunk type is the new format, its header length the announced one, its message header length the difference; format 3 goes to the extended-timestamp state, any other format to the message-header state |
| RtmpChunkHandlerTrait.ChunkHeaderPhase | src/Rtmp/RtmpChunkHandlerTrait.php:29-125 | bytes are consumed exactly when the phase reaches CHUNK_READY from BEGIN or HEADER_READY, and never more than are buffered; contexts are selected by `SelectContext`, so with the intended base header length |
| RtmpChunkHandlerTrait.OnChunkData | src/Rtmp/RtmpChunkHandlerTrait.php:29-125 | the decoder state, header length, contexts, current packet and read position become those of `ChunkHeaderPhase` (with the intended base header length of a new context, see Findings); a peeked header stays unread |
| RtmpChunkHandlerTrait.ChunkHeaderPhaseKeepsPending | src/Rtmp/RtmpChunkHandlerTrait.php:35-60 | after the phase, a decoder waiting in HEADER_READY still has the peeked byte unread |
| RtmpChunkHandlerTrait.PeekStage | src/Rtmp/RtmpChunkHandlerTrait.php:35-52 | BEGIN with one byte moves to HEADER_READY with the announced length, consuming nothing |
| RtmpChunkHandlerTrait.ReadStage | src/Rtmp/RtmpChunkHandlerTrait.php:60-125 | HEADER_READY with the whole header buffered decodes the basic header and selects its context; otherwise nothing happens |
| RtmpChunkHandlerTrait.ReadBasicHeader | src/Rtmp/RtmpChunkHandlerTrait.php:63-78 | the reads return the decoded format, id and size, and advance the read position by the size |
| RtmpChunkHandlerTrait.ChunkPeekConsumesNothing | src/Rtmp/RtmpChunkHandlerTrait.php:35-56 | with the header incomplete, BEGIN computes the header length from the peeked byte and consumes nothing |
| RtmpChunkHandlerTrait.ChunkHeaderWaits | src/Rtmp/RtmpChunkHandlerTrait.php:58-125 | HEADER_READY consumes nothing until the whole header is buffered |
| RtmpChunkHandlerTrait.ChunkHeaderSelectsContext | src/Rtmp/RtmpChunkHandlerTrait.php:60-122 | a complete header consumes exactly the basic header, adds its context if it was new, and leaves every other context as it was |
| RtmpChunkHandlerTrait.ChunkHeaderPhaseKeepsContextsKeyed | src/Rtmp/RtmpChunkHandlerTrait.php:83-111 | every context stays stored under its own chunk stream id, with the current packet among them |
| RtmpChunkHandlerTrait.NewContextHeaderLengths | src/Rtmp/RtmpChunkHandlerTrait.php:86-107 | the corrected behaviour: a new context records the basic header length actually read, and a message header length of 11, 7, 3 or 0 for its format |
| RtmpChunkHandlerTrait.BaseHeaderLenAsWritten | src/Rtmp/RtmpChunkHandlerTrait.php:90 | the table lookup indexed by the chunk stream id gives 1 for every decodable id |
| RtmpChunkHandlerTrait.MsgHeaderLenAsWritten | src/Rtmp/RtmpChunkHandlerTrait.php:90-107 | the message header length a new context gets with line 90 as written: the announced header length minus 1 |
| RtmpChunkHandlerTrait.SelectContextAsWritten | src/Rtmp/RtmpChunkHandlerTrait.php:83-122 | the context selection exactly as written, with line 90's base header length for a new context; its properties are `NewContextLengthsAsWritten` |
| RtmpChunkHandlerTrait.NewContextLengthsAsWritten | src/Rtmp/RtmpChunkHandlerTrait.php:83-122 | for every decodable header, as written: a new context gets base header length 1 and message header length of the format's size plus the basic header's size minus 1; it agrees with the intended `SelectContext` exactly when the basic header is one byte, i.e. for ids below 64; existing contexts are treated alike |
| RtmpChunkHandlerTrait.MsgHeaderLenAsWrittenIsOff | src/Rtmp/RtmpChunkHandlerTrait.php:90-107 | with line 90 as written, chunk stream 64 gets message header length 12 and chunk stream 320 gets 13 for format 0, not 11 |
| RtmpChunkHandlerTrait.SendAck | src/Rtmp/RtmpChunkHandlerTrait.php:228-233 | appends the acknowledgement bytes to the output |
| RtmpChunkHandlerTrait.SendWindowAck | src/Rtmp/RtmpChunkHandlerTrait.php:235-240 | appends the window acknowledgement size bytes |
| RtmpChunkHandlerTrait.SetPeerBandwidth | src/Rtmp/RtmpChunkHandlerTrait.php:242-248 | appends the peer bandwidth bytes |
| RtmpChunkHandlerTrait.SetChunkSize | src/Rtmp/RtmpChunkHandlerTrait.php:250-255 | appends the set chunk size bytes |
| RtmpHandshake.HandshakeGenerateS1 | src/Rtmp/RtmpHandshake.php:41-49 | S1 is 1536 bytes |
| RtmpHandshake.HandshakeGenerateS2 | src/Rtmp/RtmpHandshake.php:57-66 | S2 is 1536 bytes |
| RtmpHandshake.HandshakeGenerateS0S1S2 | src/Rtmp/RtmpHandshake.php:26-34 | S0S1S2 is 3073 bytes and starts with the version byte 3 |
| RtmpHandshake.HandshakeStatesIncrease | src/Rtmp/RtmpHandshake.php:12-15 | UNINIT < C0 < C1 < C2 |
| RtmpHandshake.S1Layout | src/Rtmp/RtmpHandshake.php:43-47 | S1 is the server clock big-endian, four zero bytes, then the 1528-byte random block |
| RtmpHandshake.S2Echoes | src/Rtmp/RtmpHandshake.php:59-64 | S2 bytes 0-3 are C1 bytes 0-3, bytes 4-7 the server clock, bytes 8-1535 C1 bytes 8-1535 |
| RtmpHandshake.S2IgnoresC1Zero | src/Rtmp/RtmpHandshake.php:59-64 | C1 bytes 4-7 do not affect S2 |
| RtmpHandshake.S0S1S2Layout | src/Rtmp/RtmpHandshake.php:28-32 | S1 at offset 1, S2 at offset 1537, and what S2 echoes from C1 at those offsets |
| RtmpHandshakeTrait.StageSize | src/Rtmp/RtmpHandshakeTrait.php:34-67 | each stage waits for 1 or 1536 bytes |
| RtmpHandshakeTrait.HandshakeRun | src/Rtmp/RtmpHandshakeTrait.php:31-79 | the state never decreases and consumption never exceeds the buffer; the chunk decoder starts exactly when C2 is reached; C1 is read exactly when the call passes C0, and it is 1536 bytes |
| RtmpHandshakeTrait.Reply | src/Rtmp/RtmpHandshakeTrait.php:55-57 | one write when C1 was read, none otherwise |
| RtmpHandshakeTrait.OnHandShake | src/Rtmp/RtmpHandshakeTrait.php:22-81 | state, read position, chunk state and output become those of `HandshakeRun` and `Reply` |
| RtmpHandshakeTrait.ComposeStages | src/Rtmp/RtmpHandshakeTrait.php:31-79 | the three fall-through stages in sequence add up to one `HandshakeRun` |
| RtmpHandshakeTrait.StageC0 | src/Rtmp/RtmpHandshakeTrait.php:33-43 | UNINIT with a byte consumes it and moves to C0; otherwise nothing changes |
| RtmpHandshakeTrait.StageC1 | src/Rtmp/RtmpHandshakeTrait.php:45-63 | C0 with 1536 bytes reads C1 and moves to C1 |
| RtmpHandshakeTrait.StageC2 | src/Rtmp/RtmpHandshakeTrait.php:65-77 | C1 with 1536 bytes reads C2, moves to C2 and starts the chunk decoder |
| RtmpHandshakeTrait.HandshakeWaits | src/Rtmp/RtmpHandshakeTrait.php:31-79 | a stage without its bytes changes nothing |
| RtmpHandshakeTrait.HandshakeC2Terminal | src/Rtmp/RtmpHandshakeTrait.php:78 | C2 has no effect |
| RtmpHandshakeTrait.HandshakeReadsC0 | src/Rtmp/RtmpHandshakeTrait.php:33-40 | UNINIT consumes exactly one byte and moves to C0 |
| RtmpHandshakeTrait.HandshakeReadsC1 | src/Rtmp/RtmpHandshakeTrait.php:45-59 | C0 consumes exactly 1536 bytes, the C1 block, which S0S1S2 answers, and moves to C1 |
| RtmpHandshakeTrait.HandshakeReadsC2 | src/Rtmp/RtmpHandshakeTrait.php:65-74 | C1 consumes exactly 1536 bytes, moves to C2 and sets CHUNK_STATE_BEGIN |
| RtmpHandshakeTrait.HandshakeCompletes | src/Rtmp/RtmpHandshakeTrait.php:38-74 | from UNINIT, C2 is reached exactly when 3073 bytes are buffered; it consumes 3073 bytes and writes S0S1S2 once, built from bytes 1-1536 |
| RtmpHandshakeTrait.HandshakeRunsThrough | src/Rtmp/RtmpHandshakeTrait.php:31-79 | with C0, C1 and C2 buffered, one call completes the handshake |
| RtmpHandshakeTrait.HandshakeStopsShort | src/Rtmp/RtmpHandshakeTrait.php:31-79 | with fewer bytes a call from UNINIT stays below C2 |
| RtmpHandshakeTrait.HandshakeIncremental | src/Rtmp/RtmpHandshakeTrait.php:31-79 | two calls on a split buffer end where one call on the whole buffer ends, and C1 is read in exactly one of them |
| RtmpHandshakeTrait.SplitAfterC0 | src/Rtmp/RtmpHandshakeTrait.php:33-40 | the split property carries over reading C0 in the first call |
| RtmpHandshakeTrait.SplitAfterC1 | src/Rtmp/RtmpHandshakeTrait.php:45-59 | the split property carries over reading C1 in the first call |
| RtmpHandshakeTrait.SplitInC1 | src/Rtmp/RtmpHandshakeTrait.php:65-78 | with C2 in the first part, the second call finds C2 |
| RtmpHandshakeTrait.SplitWaiting | src/Rtmp/RtmpHandshakeTrait.php:31-79 | a first call that waits leaves everything to the second |
| RtmpSession.ChunkHeaderLenOf | src/Rtmp/RtmpChunkHandlerTrait.php:43-46 | the header length announced by a first byte is between 1 and 14 |
| RtmpSession.Session.constructor | src/Rtmp/RtmpStream.php:37-222 | the field defaults: UNINIT, `isStarting`, `inChunkSize` 128, `outChunkSize` 60000, zero counters, empty buffer, the data-count timer handle |
| RtmpSession.Session.Valid | src/Rtmp/RtmpStream.php:234-270 | the invariant the handlers keep: read position inside the buffer, a handshake state, after C2 a chunk decoder state with the peeked byte unread, inLastAck <= inAckSize < 0xf0000000, outChunkSize > 0; the constructor establishes it, `Receive` and `OnStreamData` keep it |
| RtmpSession.Session.Receive | src/Rtmp/RtmpStream.php:190-192 | arriving bytes are appended to the buffer and the invariant holds |
| RtmpSession.MediaRegistry.constructor | src/Rtmp/RtmpInvokeHandlerTrait.php:190 | the registry starts empty |
| RtmpSession.AddPlayer | src/Rtmp/RtmpInvokeHandlerTrait.php:262 | the id joins the players of the path; the other paths keep their players |
| RtmpControlHandlerTrait.U32Payload | src/Rtmp/RtmpControlHandlerTrait.php:26-37 | `unpack('N')` reads the first four bytes big-endian; a shorter payload yields 0 |
| RtmpControlHandlerTrait.U32PayloadReadsBe32 | src/Rtmp/RtmpControlHandlerTrait.php:26-37 | a payload written with `pack('N', v)` reads back as v |
| RtmpControlHandlerTrait.RtmpControlHandler | src/Rtmp/RtmpControlHandlerTrait.php:22-43 | SET_CHUNK_SIZE sets `inChunkSize`, WINDOW_ACKNOWLEDGEMENT_SIZE sets `ackSize`, every other type keeps both; nothing else is written |
| RtmpTrait.HandlerFor | src/Rtmp/RtmpTrait.php:36-67 | the handler of each message type, each as an if-and-only-if |
| RtmpTrait.UnhandledTypesAreDropped | src/Rtmp/RtmpTrait.php:36-67 | a type reaches no handler exactly when it is not one of the twelve handled types |
| RtmpTrait.Stop | src/Rtmp/RtmpTrait.php:76-113 | afterwards `isStarting` is false and one `on_close` is emitted; the first call clears the timer handles, cancels the set ones and deletes the play and publish streams whose ids are positive; a later call changes nothing else |
| RtmpInvokeHandlerTrait.StripSlashes | src/Rtmp/RtmpInvokeHandlerTrait.php:92 | no '/' remains, and a name without '/' is unchanged |
| RtmpInvokeHandlerTrait.StripSlashesConcat | src/Rtmp/RtmpInvokeHandlerTrait.php:92 | removing slashes distributes over concatenation |
| RtmpInvokeHandlerTrait.StripSlashesKeepsOthers | src/Rtmp/RtmpInvokeHandlerTrait.php:92 | every other character keeps its count |
| RtmpInvokeHandlerTrait.StripSlashesIdempotent | src/Rtmp/RtmpInvokeHandlerTrait.php:92 | stripping twice is stripping once |
| RtmpInvokeHandlerTrait.BeforeQuestion | src/Rtmp/RtmpInvokeHandlerTrait.php:158 | `explode('?')[0]` is a '?'-free prefix that ends at the first '?' or at the end |
| RtmpInvokeHandlerTrait.BeforeQuestionUnique | src/Rtmp/RtmpInvokeHandlerTrait.php:158 | those facts determine the prefix |
| RtmpInvokeHandlerTrait.QueryPart | src/Rtmp/RtmpInvokeHandlerTrait.php:162 | `explode('?')[1] ?? ''`: empty without a '?', otherwise the text up to the next '?' |
| RtmpInvokeHandlerTrait.StreamPath | src/Rtmp/RtmpInvokeHandlerTrait.php:160 | the path is '/', the app name, '/', then the name before its first '?' |
| RtmpInvokeHandlerTrait.StreamPathIgnoresQuery | src/Rtmp/RtmpInvokeHandlerTrait.php:158-162 | a `?args` suffix does not change the path, and the args are what follows the '?' |
| RtmpInvokeHandlerTrait.StreamStatusMessage | src/Rtmp/RtmpInvokeHandlerTrait.php:301-307 | `sendStreamStatus`: the template with `pack('nN')` of status and id from offset 12; the layout is `StreamStatusLayout` |
| RtmpInvokeHandlerTrait.StreamStatusLayout | src/Rtmp/RtmpInvokeHandlerTrait.php:301-307 | the stream status is an 18-byte user control message: the status big-endian at offset 12, the stream id at 14 |
| RtmpInvokeHandlerTrait.StatusMessage | src/Rtmp/RtmpInvokeHandlerTrait.php:357-369 | `sendStatusMessage`: an `onStatus` invoke, transaction 0, no command object, with the level, code and description |
| RtmpInvokeHandlerTrait.SampleAccessMessage | src/Rtmp/RtmpInvokeHandlerTrait.php:377-384 | `sendRtmpSampleAccess`: the `\|RtmpSampleAccess` data message with two false flags |
| RtmpInvokeHandlerTrait.EncodingOf | src/Rtmp/RtmpInvokeHandlerTrait.php:103 | the command object's encoding, 0 when it is absent or null |
| RtmpInvokeHandlerTrait.ConnectResult | src/Rtmp/RtmpInvokeHandlerTrait.php:413-430 | `responseConnect`: `_result` on stream 0 with the server version, capabilities 31, the success status and the object encoding |
| RtmpInvokeHandlerTrait.ConnectReplies | src/Rtmp/RtmpInvokeHandlerTrait.php:111-118 | the four writes of an accepted connect in order; `ConnectRepliesLayout` reads them back |
| RtmpInvokeHandlerTrait.ConnectRepliesLayout | src/Rtmp/RtmpInvokeHandlerTrait.php:413-430 | the connect replies are, in order: window-ack 5000000, peer bandwidth 5000000 with type 2, the chunk size, then `_result` with the transaction id and the object encoding |
| RtmpInvokeHandlerTrait.WindowAckFields | src/Rtmp/RtmpChunkHandlerTrait.php:235-240 | the type byte and the value of a window acknowledgement size message |
| RtmpInvokeHandlerTrait.SetChunkSizeFields | src/Rtmp/RtmpChunkHandlerTrait.php:250-255 | the type byte and the value of a set chunk size message |
| RtmpInvokeHandlerTrait.PeerBandwidthFields | src/Rtmp/RtmpChunkHandlerTrait.php:242-248 | the type byte, the size and the limit type of a peer bandwidth message |
| RtmpInvokeHandlerTrait.PlayReplies | src/Rtmp/RtmpInvokeHandlerTrait.php:453-463 | the four writes of `respondPlay` in order; `PlayRepliesLayout` reads them back |
| RtmpInvokeHandlerTrait.PlayRepliesLayout | src/Rtmp/RtmpInvokeHandlerTrait.php:453-463 | the play replies are, in order: Stream Begin for the play stream, `NetStream.Play.Reset`, `NetStream.Play.Start`, `\|RtmpSampleAccess`, all on the play stream id |
| RtmpInvokeHandlerTrait.DecidePublish | src/Rtmp/RtmpInvokeHandlerTrait.php:190-209 | BadName exactly when the path is registered, BadConnection when it is not but the session publishes, Accept otherwise |
| RtmpInvokeHandlerTrait.AfterPublish | src/Rtmp/RtmpInvokeHandlerTrait.php:190-201 | `addPublish` runs only on Accept; `AfterPublishGrows` and `PublisherIsKept` state what that means for the registry |
| RtmpInvokeHandlerTrait.PublishStatus | src/Rtmp/RtmpInvokeHandlerTrait.php:190-204 | the status of each outcome: `NetStream.Publish.BadName`, `NetStream.Publish.BadConnection`, or `NetStream.Publish.Start` naming the path |
| RtmpInvokeHandlerTrait.PublisherIsKept | src/Rtmp/RtmpInvokeHandlerTrait.php:190-201 | once a path has a publisher, no sequence of publish attempts from any sessions replaces it |
| RtmpInvokeHandlerTrait.AfterPublishGrows | src/Rtmp/RtmpInvokeHandlerTrait.php:190-201 | the registry only grows, and gains the path exactly on Accept |
| RtmpInvokeHandlerTrait.OnConnect | src/Rtmp/RtmpInvokeHandlerTrait.php:87-129 | `preConnect` is emitted with the slash-free app name; a stopped session changes nothing else; otherwise the command object, app name, encoding (0 when absent), start time, ping timer and bitrate cache are set, and the four connect replies are written; no field of the other command handlers changes |
| RtmpInvokeHandlerTrait.ConnectAccepted | src/Rtmp/RtmpInvokeHandlerTrait.php:99-126 | the accepting half of `onConnect`: the fields and the four replies |
| RtmpInvokeHandlerTrait.RespondCreateStream | src/Rtmp/RtmpInvokeHandlerTrait.php:437-447 | `streams` goes up by one and the `_result` carries the new value; no other command field changes |
| RtmpInvokeHandlerTrait.PassesAuth | src/Rtmp/RtmpInvokeHandlerTrait.php:151-188 | a call gets to the decision when it is a re-entry, or a first call with a string name and a definite `verifyAuth` result |
| RtmpInvokeHandlerTrait.OnPublish | src/Rtmp/RtmpInvokeHandlerTrait.php:149-211 | a first call without a name changes nothing; with one it sets path, args and stream id, which a re-entry keeps; a pending check defers and changes nothing more; past the check, `DecidePublish` sets the registry, `isPublishing`, the status message and the events, and BadName stops the session; connection, play and receive fields never change |
| RtmpInvokeHandlerTrait.PublishName | src/Rtmp/RtmpInvokeHandlerTrait.php:158-163 | the path is '/' app '/' name before '?', the args the text after it, the stream id the packet's; the other command fields are kept |
| RtmpInvokeHandlerTrait.PublishDecided | src/Rtmp/RtmpInvokeHandlerTrait.php:190-210 | BadName stops the session and keeps the registry, BadConnection only reports, Accept registers and emits `on_publish_ready`; the status text matches the decision; the connection, play and receive fields and the players are kept |
| RtmpInvokeHandlerTrait.RejectPublish | src/Rtmp/RtmpInvokeHandlerTrait.php:190-194 | `reject()` is `stop()`: `isStarting` false, `on_close`, the timers cleared when the session was started; then the BadName status; the path, stream id and publishing flag are kept |
| RtmpInvokeHandlerTrait.OnPublishAuthRejected | src/Rtmp/RtmpInvokeHandlerTrait.php:181-185 | a rejected deferred check writes `NetStream.publish.Unauthorized` |
| RtmpInvokeHandlerTrait.RespondPlay | src/Rtmp/RtmpInvokeHandlerTrait.php:453-463 | appends the four play replies |
| RtmpInvokeHandlerTrait.OnPlay | src/Rtmp/RtmpInvokeHandlerTrait.php:219-264 | a first call without a name changes nothing; with one it sets path, args and stream id; a pending check defers; past the check the session joins the players in both branches, with `NetStream.Play.BadConnection` when it already plays and the play replies otherwise; no field outside onPlay's changes |
| RtmpInvokeHandlerTrait.PlayName | src/Rtmp/RtmpInvokeHandlerTrait.php:226-229 | the path, args and stream id of the name asked for; the other command fields are kept |
| RtmpInvokeHandlerTrait.PlayDecided | src/Rtmp/RtmpInvokeHandlerTrait.php:255-263 | the BadConnection status or the play replies, then the session joins the path's players; the publishers and every other command field are kept |
| RtmpInvokeHandlerTrait.OnPlayAuthRejected | src/Rtmp/RtmpInvokeHandlerTrait.php:246-250 | a rejected deferred check writes `NetStream.play.Unauthorized` |
| RtmpInvokeHandlerTrait.OnReceiveAudio | src/Rtmp/RtmpInvokeHandlerTrait.php:286-291 | `isReceiveAudio` takes the flag; nothing else changes |
| RtmpInvokeHandlerTrait.OnReceiveVideo | src/Rtmp/RtmpInvokeHandlerTrait.php:294-298 | `isReceiveVideo` takes the flag; nothing else changes |
| RtmpInvokeHandlerTrait.CommandFor | src/Rtmp/RtmpInvokeHandlerTrait.php:32-78 | each handled command, as an if-and-only-if on the command name |
| RtmpInvokeHandlerTrait.NoOpCommands | src/Rtmp/RtmpInvokeHandlerTrait.php:38-69 | `releaseStream`, `FCPublish`, `FCUnpublish`, `pause`, `deleteStream` and `closeStream` do nothing |
| RtmpInvokeHandlerTrait.RtmpInvokeHandler | src/Rtmp/RtmpInvokeHandlerTrait.php:22-80 | ignored commands change nothing; connect, createStream, publish, play, receiveAudio and receiveVideo have exactly the effect of their handler on a first call, including that the other handlers' fields keep their values; only publish and play touch the registry and only they can defer |
| RtmpDataHandlerTrait.ChannelsOf | src/Rtmp/RtmpDataHandlerTrait.php:35 | 2 for a truthy `stereo`, 1 for a falsy one, the old count when absent |
| RtmpDataHandlerTrait.MergeMetadata | src/Rtmp/RtmpDataHandlerTrait.php:31-42 | the `??` updates of the five settings; `MergeFieldwise`, `MergeIdempotent` and `MergeCompose` state their meaning |
| RtmpDataHandlerTrait.MergeFieldwise | src/Rtmp/RtmpDataHandlerTrait.php:31-42 | each setting becomes its key's value when present and keeps the old value otherwise |
| RtmpDataHandlerTrait.MergeEmptyKeepsAll | src/Rtmp/RtmpDataHandlerTrait.php:31-42 | an object without the keys changes nothing |
| RtmpDataHandlerTrait.MergeIdempotent | src/Rtmp/RtmpDataHandlerTrait.php:31-42 | announcing the same object twice is announcing it once |
| RtmpDataHandlerTrait.MergeCompose | src/Rtmp/RtmpDataHandlerTrait.php:31-42 | two announcements act as one of their overlay: the latest present key wins |
| RtmpDataHandlerTrait.RtmpDataHandler | src/Rtmp/RtmpDataHandlerTrait.php:19-57 | only `@setDataFrame` acts: the settings merge (skipped without a data object), `isMetaData` is set, the `onMetaData` frame replaces the old one and is emitted once |
| RtmpVideoHandlerTrait.FrameType | src/Rtmp/RtmpVideoHandlerTrait.php:70 | the frame type is the high nibble of the first byte |
| RtmpVideoHandlerTrait.CodecId | src/Rtmp/RtmpVideoHandlerTrait.php:28-45 | the codec id is the low nibble, and together with the frame type it makes up the first byte |
| RtmpVideoHandlerTrait.AvcPacketType | src/Rtmp/RtmpVideoHandlerTrait.php:50-52 | the AVC packet type is the one `AVCPacket` reads after the first byte |
| RtmpVideoHandlerTrait.GopStep | src/Rtmp/RtmpVideoHandlerTrait.php:52-83 | the flag and cache update of one frame; the lemmas below state its meaning |
| RtmpVideoHandlerTrait.GopRun | src/Rtmp/RtmpVideoHandlerTrait.php:52-83 | `GopStep` over a frame sequence, the state a session reaches |
| RtmpVideoHandlerTrait.GopRunAppend | src/Rtmp/RtmpVideoHandlerTrait.php:68-83 | running two frame sequences in turn is running their concatenation |
| RtmpVideoHandlerTrait.KeyNaluRestartsGop | src/Rtmp/RtmpVideoHandlerTrait.php:70-81 | a key NALU leaves exactly that frame in the cache |
| RtmpVideoHandlerTrait.NothingBeforeSequenceHeader | src/Rtmp/RtmpVideoHandlerTrait.php:52-68 | until a sequence header, the flag and the cache do not change |
| RtmpVideoHandlerTrait.NonAvcFramesIgnored | src/Rtmp/RtmpVideoHandlerTrait.php:45-86 | frames of other codecs change neither the flag nor the cache |
| RtmpVideoHandlerTrait.GopAppendsInOrder | src/Rtmp/RtmpVideoHandlerTrait.php:76-82 | after the sequence has started, frames other than key NALUs and key sequence headers are appended in arrival order |
| RtmpVideoHandlerTrait.GopStartsAtLastKeyFrame | src/Rtmp/RtmpVideoHandlerTrait.php:70-82 | after a key NALU the cache is that frame followed by the frames appended since |
| RtmpVideoHandlerTrait.LatchCodec | src/Rtmp/RtmpVideoHandlerTrait.php:27-30 | the codec is set only while it is 0; `LatchedCodecStays` and `CodecLatchesFirst` state the result |
| RtmpVideoHandlerTrait.FirstCodec | src/Rtmp/RtmpVideoHandlerTrait.php:27-30 | 0 exactly when no frame has a nonzero codec id |
| RtmpVideoHandlerTrait.LatchedCodecStays | src/Rtmp/RtmpVideoHandlerTrait.php:27-30 | a latched codec never changes |
| RtmpVideoHandlerTrait.CodecLatchesFirst | src/Rtmp/RtmpVideoHandlerTrait.php:27-30 | the session ends up with the codec of the first frame with a nonzero id |
| RtmpVideoHandlerTrait.RtmpVideoHandler | src/Rtmp/RtmpVideoHandlerTrait.php:17-92 | codec latch, frame count and timer while the rate is unknown, the GOP step, the sequence-header fields from the parameter set on every sequence header, and exactly one `on_frame` |
| RtmpVideoHandlerTrait.CountStage | src/Rtmp/RtmpVideoHandlerTrait.php:27-43 | the codec is latched; `videoCount` grows only while `videoFps` is 0, and the first counted frame starts the timer |
| RtmpVideoHandlerTrait.AvcStage | src/Rtmp/RtmpVideoHandlerTrait.php:45-86 | the flag and cache follow `GopStep`; a sequence header sets the header frame and the picture fields, other frames keep them |
| RtmpVideoHandlerTrait.SequenceHeaderStage | src/Rtmp/RtmpVideoHandlerTrait.php:52-67 | the flag, the header frame, and the width, height, profile and level of the parameter set after the header |
| RtmpVideoHandlerTrait.GopStage | src/Rtmp/RtmpVideoHandlerTrait.php:68-83 | the cache becomes that of `GopStep` |
| RtmpVideoHandlerTrait.FpsTimerFired | src/Rtmp/RtmpVideoHandlerTrait.php:37-41 | the rate becomes ceil(count / 5) and the timer handle is cleared |
| MediaReader.ParseAvcHeader | src/MediaReader/AVCPacket.php:34-36 | the packet type is the first byte, the composition time a 24-bit value |
| MediaReader.AvcHeaderBytes | src/MediaReader/AVCPacket.php:34-36 | the header is four bytes |
| MediaReader.AvcHeaderRoundTrip | src/MediaReader/AVCPacket.php:34-36 | parsing a written header gives it back up to the field widths, whatever follows |
| MediaReader.AvcHeaderEncodes | src/MediaReader/AVCPacket.php:34-36 | any four bytes are the layout of the header they parse to |
| MediaReader.AvcPacket.constructor | src/MediaReader/AVCPacket.php:30-37 | the constructor parses the header and consumes exactly four bytes |
| MediaReader.AvcPacket.GetAVCSequenceParameterSet | src/MediaReader/AVCPacket.php:49-55 | the first call parses all remaining bytes and keeps the result; later calls return it and read nothing |
| RtmpStream.AckSentIff | src/Rtmp/RtmpStream.php:256-261 | an acknowledgement goes out exactly when the window is on and full; it carries the count, which becomes the last acknowledged count |
| RtmpStream.AckStep | src/Rtmp/RtmpStream.php:249-261 | one window step: add the received count, start over at 0xf0000000, acknowledge when a window has accrued; its properties are the lemmas below |
| RtmpStream.AckRun | src/Rtmp/RtmpStream.php:249-261 | the acknowledgements a sequence of calls sends |
| RtmpStream.AckStepKeepsCounters | src/Rtmp/RtmpStream.php:249-261 | 0 <= inLastAck <= inAckSize < 0xf0000000 is kept, and afterwards the window is off or less than a window has accrued |
| RtmpStream.AckStepCounts | src/Rtmp/RtmpStream.php:249-254 | the counter grows by the bytes received unless it starts over at 0xf0000000 |
| RtmpStream.NoAckWithoutWindow | src/Rtmp/RtmpStream.php:256 | with `ackSize` 0, no acknowledgement is ever sent |
| RtmpStream.NoAckWithinWindow | src/Rtmp/RtmpStream.php:249-261 | arrivals that stay short of a window cause no acknowledgement |
| RtmpStream.AckStage | src/Rtmp/RtmpStream.php:249-261 | counters and output follow `AckStep`, and the counter bounds are kept |
| RtmpStream.ValidIsFieldsValid | src/Rtmp/RtmpStream.php:234-270 | the session invariant restricted to the fields `onStreamData` touches |
| RtmpStream.HandshakePart | src/Rtmp/RtmpStream.php:240-242 | the handshake half keeps the invariant |
| RtmpStream.ChunkPart | src/Rtmp/RtmpStream.php:245-262 | the chunk and acknowledgement half keeps the invariant |
| RtmpStream.StreamData | src/Rtmp/RtmpStream.php:234-270 | one call keeps the invariant |
| RtmpStream.StreamDataBeforeC2 | src/Rtmp/RtmpStream.php:240-247 | while the handshake does not complete, the chunk decoder and the window do not move |
| RtmpStream.StreamDataAfterC2 | src/Rtmp/RtmpStream.php:240-262 | after the handshake, a call is the header phase and one window step, and the handshake state stays C2 |
| RtmpStream.StreamDataCompletesHandshake | src/Rtmp/RtmpStream.php:240-247 | a call that completes the handshake runs the chunk decoder from BEGIN on the rest, in the same call |
| RtmpStream.StreamDataCountsCalls | src/Rtmp/RtmpStream.php:266 | every call adds one to `frameCount` |
| RtmpStream.HandshakeStage | src/Rtmp/RtmpStream.php:240-242 | the session fields become `HandshakePart` |
| RtmpStream.ChunkStage | src/Rtmp/RtmpStream.php:245-262 | the session fields become `ChunkPart` |
| RtmpStream.OnStreamData | src/Rtmp/RtmpStream.php:234-270 | the session fields become `StreamData` of the old ones, and the invariant holds |
| RtmpStream.OnStreamClose | src/Rtmp/RtmpStream.php:274-284 | close and error both stop the session: `isStarting` is false and `on_close` is emitted; a started session has its three timer handles cleared, a stopped one keeps them |

## Left out

- Payload reassembly (`onPacketHandler`) is not part of this model. So `onChunkData` is modelled up to CHUNK_READY, and its recursive call is not modelled.
- AMF0 encoding and decoding (`RtmpAMF`) is not part of this model. Invoke and data messages are records with the fields the handlers read. Messages written through `sendInvokeMessage` and `sendDataMessage` are recorded as records, not as chunk bytes. `rtmpChunksCreate` is modelled separately.
- `MediaServer` is not part of this model:
  - `verifyAuth` becomes a parameter with three outcomes: falsy, truthy and pending.
  - `hasPublishStream`, `addPublish` and `addPlayer` work on a map of publishers and a map of players; what else they do is not modelled.
  - `isPlaying` is never set by the modelled code, so whatever handlers set it elsewhere are not modelled.
- A deferred authorisation works through promises, with no concurrency in the model. It is modelled as a pending outcome; the resolution re-enters the handler with `isPromise` true, and the rejection is `OnPublishAuthRejected` / `OnPlayAuthRejected`.
- Timers (`Timer::add`, `Timer::del`) are left out. Only the handle fields are set and cleared; handles are parameters, and 0 stands for null. Nothing else the timers do is modelled:
  - the ping callback and `sendPingRequest`;
  - the data-count callback of the constructor, which uses floats, `microtime` and the connection's byte counter;
  - `frameTimeCount`.
- Listeners of `emit` are left out; emitted events are recorded in a list. The `preConnect` listeners may stop the session before `isStarting` is tested. The model reads `isStarting` as it stands when `onConnect` runs.
- `logger()`, `microtime` and `write()` are left out. `write()` becomes an append to the output list.
- `parse_str` is not modelled: the query text is kept as raw text in `publishArgs` / `playArgs`.
- Host byte order: `pack('S')` and `pack('L')` are modelled as little-endian.
- `RtmpStream.OnStreamData`: `WMBufferStream` is not part of this model, so what `recvSize()` returns is not known. The model assumes that `strlen($this->buffer->recvSize())` is some natural number and takes it as the parameter `received`.
- `VideoFrame` and `BinaryStream` are not part of this model, so the model assumes the following:
  - the frame type and codec id are the two nibbles of the first payload byte, and an empty payload reads as 0;
  - the AVC packet of `getAVCPacket()` starts at payload offset 1;
  - `readRaw()` returns the rest of the stream;
  - `readInt24()` is unsigned.
- `RtmpVideoHandlerTrait.RtmpVideoHandler`: an AVC frame shorter than five bytes skips the AVC branch, because the behaviour of `BinaryStream` on short reads is not known. For the same reason `MediaReader.AvcPacket.constructor` requires four header bytes.
- `getVideoCodecName` and `AVCSequenceParameterSet` are not part of this model. They are parameters. The session keeps the parsed width, height, profile name and level.
- `RtmpSession.Session.constructor`: the random session id and the `ip`/`port` fields are left out. The id is a parameter.
- `enableGop` is not read by the modelled code. It is kept at its default.
- `RtmpDataHandlerTrait.RtmpDataHandler`: metadata values are natural numbers. Floating-point frame rates and non-numeric values are not modelled. In PHP the frame counter runs only while `videoFps === 0` (RtmpVideoHandlerTrait.php:33), a strict test: a frame rate of 0.0 from metadata, or the float that `ceil` returns in the rate timer, is not `=== 0`. The model compares natural numbers, so it does not capture that a float zero keeps the counter off.
- `RtmpControlHandlerTrait.RtmpControlHandler`: `unpack('N')` on a payload shorter than four bytes fails in PHP, and the field is set to null; the model writes 0.
- `RtmpTrait.Stop`: `onDeleteStream` is empty, so the stream ids it is called with are returned and nothing is deleted. `stop()` does not deregister the session, so after a BadName publish the registry is unchanged.
- `RtmpChunkHandlerTrait.SelectContext`: a new context records the basic header length actually read, the intended behaviour. Line 90 as written records 1 (see Findings), which `SelectContextAsWritten` models; for chunk stream ids of 64 and above the stored base and message header lengths therefore differ from the code by the basic header's size minus 1.
- `RtmpChunkHandlerTrait.ChunkHeaderPhase`: it selects contexts with `SelectContext`, so it carries the same corrected lengths for chunk stream ids of 64 and above.
- `RtmpChunkHandlerTrait.OnChunkData`: it stores the contexts of `ChunkHeaderPhase`, so a new context on a chunk stream id of 64 or above gets the corrected base and message header lengths, not those of lines 90 and 107 as written.
- `RtmpChunkHandlerTrait.NewContextHeaderLengths`: states the corrected lengths; what the code as written stores is `NewContextLengthsAsWritten`.
- A truthy definite result of `verifyAuth`, like a falsy one, proceeds to the publish or play decision. The `$result === false` test cannot be reached at lines 168 and 235. This is modelled as written: `PassesAuth` proceeds for every definite outcome, so the Unauthorized status is sent only when a pending check is rejected.

## Findings

| source | as written | input that shows it | evidently intended | confidence | as-written member | corrected member |
|---|---|---|---|---|---|---|
| src/Rtmp/RtmpChunkHandlerTrait.php:90 | `baseHeaderLen = BASE_HEADER_SIZES[$csId] ?? 1` indexes the header-size table by the chunk stream id, so it is 1 for every decoded id (ids are at least 2), and line 107 then gives `msgHeaderLen = chunkHeaderLen - 1` | a format-0 chunk on chunk stream 64 (first bytes 0x00 0x00) gets message header length 12, on chunk stream 320 (0x01 0x00 0x01) 13, instead of 11; in general a new context gets the format's size plus the basic header's size minus 1 (`NewContextLengthsAsWritten`) | index by the low six bits of the first byte, so the base header length is the 1, 2 or 3 bytes actually read and the message header length is 11, 7, 3 or 0 by format | not executed | RtmpChunkHandlerTrait.MsgHeaderLenAsWrittenIsOff | RtmpChunkHandlerTrait.NewContextHeaderLengths |
