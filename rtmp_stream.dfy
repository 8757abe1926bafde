/** RtmpStream.onStreamData: what one arrival of bytes does to a session. The handshake
    runs while it is unfinished; once it is finished (possibly by this very call) the
    header phase of the chunk decoder runs and the received bytes are counted against
    the acknowledgement window of section 5.4.3 of the Adobe RTMP specification.
    `received` is the byte measure the session adds per call. */
module RtmpStream {
  import opened Bytes
  import opened RtmpTypes
  import opened RtmpConstants
  import opened RtmpHandshake
  import opened RtmpChunkCodec
  import opened RtmpSession
  import opened RtmpHandshakeTrait
  import opened RtmpChunkHandlerTrait
  import opened RtmpTrait

  // ---------------------------------------------------------------------------
  // The acknowledgement window

  /** The two counters and the acknowledgement sent, if any. */
  datatype AckOutcome = AckOutcome(inAckSize: nat, inLastAck: nat, ack: Option<nat>)

  /** The counters between calls: 0 <= inLastAck <= inAckSize < 0xf0000000. */
  predicate AckCounters(inAckSize: nat, inLastAck: nat) {
    inLastAck <= inAckSize < ACK_COUNTER_LIMIT
  }

  /** The counter after `received` more bytes: it starts over, together with the last
      acknowledged count, when it reaches 0xf0000000. */
  function Counted(inAckSize: nat, inLastAck: nat, received: nat): (r: AckOutcome) {
    if inAckSize + received >= ACK_COUNTER_LIMIT then AckOutcome(0, 0, None)
    else AckOutcome(inAckSize + received, inLastAck, None)
  }

  /** One step of the window: count, then acknowledge the count when a whole window has
      accrued since the last acknowledgement. */
  function AckStep(inAckSize: nat, inLastAck: nat, ackSize: nat, received: nat): AckOutcome {
    var c := Counted(inAckSize, inLastAck, received);
    if ackSize > 0 && c.inAckSize - c.inLastAck >= ackSize then AckOutcome(c.inAckSize, c.inAckSize, Some(c.inAckSize))
    else c
  }

  /** An acknowledgement goes out exactly when the window is on and full; it carries
      the count, which becomes the last acknowledged count. */
  lemma AckSentIff(inAckSize: nat, inLastAck: nat, ackSize: nat, received: nat)
    ensures var c := Counted(inAckSize, inLastAck, received);
      var r := AckStep(inAckSize, inLastAck, ackSize, received);
      && (r.ack.Some? <==> ackSize > 0 && c.inAckSize - c.inLastAck >= ackSize)
      && (r.ack.Some? ==> r.ack.value == r.inAckSize == r.inLastAck == c.inAckSize)
      && (r.ack.None? ==> r.inAckSize == c.inAckSize && r.inLastAck == c.inLastAck)
  {
  }

  /** The counters stay within their bounds, and after every step the window is off or
      not full: once an acknowledgement has gone out, the next one needs another whole
      window of bytes. */
  lemma AckStepKeepsCounters(inAckSize: nat, inLastAck: nat, ackSize: nat, received: nat)
    requires AckCounters(inAckSize, inLastAck)
    ensures var r := AckStep(inAckSize, inLastAck, ackSize, received);
      && AckCounters(r.inAckSize, r.inLastAck)
      && (ackSize == 0 || r.inAckSize - r.inLastAck < ackSize)
      && (r.ack.Some? ==> r.inAckSize - r.inLastAck == 0)
  {
  }

  /** The counter grows by the bytes received unless it starts over. */
  lemma AckStepCounts(inAckSize: nat, inLastAck: nat, ackSize: nat, received: nat)
    ensures var r := AckStep(inAckSize, inLastAck, ackSize, received);
      (inAckSize + received < ACK_COUNTER_LIMIT ==> r.inAckSize == inAckSize + received)
      && (inAckSize + received >= ACK_COUNTER_LIMIT ==> r.inAckSize == 0 && r.inLastAck == 0 && r.ack.None?)
  {
  }

  /** The acknowledgements a sequence of arrivals causes. */
  function AckRun(inAckSize: nat, inLastAck: nat, ackSize: nat, arrivals: seq<nat>): (acks: seq<nat>)
    decreases |arrivals|
  {
    if arrivals == [] then []
    else
      var r := AckStep(inAckSize, inLastAck, ackSize, arrivals[0]);
      (if r.ack.Some? then [r.ack.value] else []) + AckRun(r.inAckSize, r.inLastAck, ackSize, arrivals[1..])
  }

  /** With the window size at its initial 0 (the peer never sent a Window Acknowledgement
      Size), no acknowledgement is ever sent. */
  lemma {:induction false} NoAckWithoutWindow(inAckSize: nat, inLastAck: nat, arrivals: seq<nat>)
    ensures AckRun(inAckSize, inLastAck, 0, arrivals) == []
    decreases |arrivals|
  {
    if arrivals != [] {
      var r := AckStep(inAckSize, inLastAck, 0, arrivals[0]);
      NoAckWithoutWindow(r.inAckSize, r.inLastAck, arrivals[1..]);
    }
  }

  /** Arrivals that together stay short of a window after the last acknowledgement (and
      do not reach the counter limit) cause no acknowledgement. */
  lemma {:induction false} NoAckWithinWindow(inAckSize: nat, inLastAck: nat, ackSize: nat, arrivals: seq<nat>)
    requires AckCounters(inAckSize, inLastAck)
    requires inAckSize + Sum(arrivals) < ACK_COUNTER_LIMIT
    requires inAckSize + Sum(arrivals) - inLastAck < ackSize
    ensures AckRun(inAckSize, inLastAck, ackSize, arrivals) == []
    decreases |arrivals|
  {
    if arrivals != [] {
      var r := AckStep(inAckSize, inLastAck, ackSize, arrivals[0]);
      assert r == AckOutcome(inAckSize + arrivals[0], inLastAck, None);
      assert inAckSize + Sum(arrivals) == r.inAckSize + Sum(arrivals[1..]);
      NoAckWithinWindow(r.inAckSize, r.inLastAck, ackSize, arrivals[1..]);
    }
  }

  function Sum(xs: seq<nat>): nat
    decreases |xs|
  {
    if xs == [] then 0 else xs[0] + Sum(xs[1..])
  }

  /** The window step on the session's counters. */
  method AckStage(s: Session, received: nat)
    requires AckCounters(s.inAckSize, s.inLastAck)
    modifies s`inAckSize, s`inLastAck, s`output
    ensures var r := AckStep(old(s.inAckSize), old(s.inLastAck), s.ackSize, received);
      && s.inAckSize == r.inAckSize && s.inLastAck == r.inLastAck
      && s.output == old(s.output) + (if r.ack.Some? then [Raw(AckMessage(r.ack.value))] else [])
    ensures AckCounters(s.inAckSize, s.inLastAck)
  {
    s.inAckSize := s.inAckSize + received;
    if s.inAckSize >= ACK_COUNTER_LIMIT {
      s.inAckSize := 0;
      s.inLastAck := 0;
    }
    if s.ackSize > 0 && s.inAckSize - s.inLastAck >= s.ackSize {
      s.inLastAck := s.inAckSize;
      SendAck(s, s.inAckSize);
    }
    AckStepKeepsCounters(old(s.inAckSize), old(s.inLastAck), s.ackSize, received);
  }

  // ---------------------------------------------------------------------------
  // onStreamData

  /** The fields of a session that `onStreamData` reads or writes, as one record. */
  datatype StreamFields = StreamFields(
    handshakeState: int,
    readPos: nat,
    chunkState: int,
    chunkHeaderLen: nat,
    allPackets: map<nat, ChunkContext>,
    currentPacket: Option<nat>,
    inAckSize: nat,
    inLastAck: nat,
    output: seq<Outgoing>,
    frameCount: nat)

  function FieldsOf(s: Session): StreamFields
    reads s
  {
    StreamFields(s.handshakeState, s.readPos, s.chunkState, s.chunkHeaderLen, s.allPackets,
                 s.currentPacket, s.inAckSize, s.inLastAck, s.output, s.frameCount)
  }

  /** The part of `Session.Valid` about these fields, over the receive buffer. */
  predicate FieldsValid(f: StreamFields, buffer: seq<byte>) {
    && f.readPos <= |buffer|
    && RTMP_HANDSHAKE_UNINIT <= f.handshakeState <= RTMP_HANDSHAKE_C2
    && (f.handshakeState == RTMP_HANDSHAKE_C2 ==>
          ChunkDecoderState(f.chunkState) && HeaderPending(f.chunkState, f.chunkHeaderLen, buffer[f.readPos..]))
    && AckCounters(f.inAckSize, f.inLastAck)
  }

  lemma ValidIsFieldsValid(s: Session)
    ensures s.Valid() <==> FieldsValid(FieldsOf(s), s.buffer) && s.outChunkSize > 0
  {
  }

  /** The first half of onStreamData: the handshake, while it is unfinished. */
  function HandshakePart(f: StreamFields, buffer: seq<byte>, time1: nat, time2: nat, random: seq<byte>): (r: StreamFields)
    requires FieldsValid(f, buffer)
    ensures FieldsValid(r, buffer)
  {
    if f.handshakeState < RTMP_HANDSHAKE_C2 then
      var hs := HandshakeRun(f.handshakeState, buffer[f.readPos..]);
      f.(handshakeState := hs.state,
         readPos := f.readPos + hs.consumed,
         chunkState := if hs.chunkBegin then CHUNK_STATE_BEGIN else f.chunkState,
         output := f.output + Reply(hs.c1, time1, time2, random))
    else f
  }

  /** The writes of one window step. */
  function AckWrites(a: AckOutcome): seq<Outgoing> {
    if a.ack.Some? then [Raw(AckMessage(a.ack.value))] else []
  }

  /** The second half: once the handshake is complete, the header phase of the chunk
      decoder and the acknowledgement window. */
  function ChunkPart(f: StreamFields, buffer: seq<byte>, ackSize: nat, received: nat): (r: StreamFields)
    requires FieldsValid(f, buffer)
    ensures FieldsValid(r, buffer)
  {
    if f.handshakeState == RTMP_HANDSHAKE_C2 then
      var input := buffer[f.readPos..];
      var c := ChunkHeaderPhase(f.chunkState, f.chunkHeaderLen, f.allPackets, f.currentPacket, input);
      var a := AckStep(f.inAckSize, f.inLastAck, ackSize, received);
      ChunkHeaderPhaseKeepsPending(f.chunkState, f.chunkHeaderLen, f.allPackets, f.currentPacket, input);
      assert buffer[f.readPos + c.consumed..] == input[c.consumed..];
      AckStepKeepsCounters(f.inAckSize, f.inLastAck, ackSize, received);
      f.(readPos := f.readPos + c.consumed,
         chunkState := c.state,
         chunkHeaderLen := c.chunkHeaderLen,
         allPackets := c.packets,
         currentPacket := c.current,
         inAckSize := a.inAckSize,
         inLastAck := a.inLastAck,
         output := f.output + AckWrites(a))
    else f
  }

  /** One call of onStreamData on the session's fields. */
  function StreamData(f: StreamFields, buffer: seq<byte>, ackSize: nat, received: nat,
                      time1: nat, time2: nat, random: seq<byte>): (r: StreamFields)
    requires FieldsValid(f, buffer)
    ensures FieldsValid(r, buffer)
  {
    var g := ChunkPart(HandshakePart(f, buffer, time1, time2, random), buffer, ackSize, received);
    g.(frameCount := f.frameCount + 1)
  }

  /** While the handshake does not complete, the call is the handshake alone: the chunk
      decoder and the window counters do not move. */
  lemma StreamDataBeforeC2(f: StreamFields, buffer: seq<byte>, ackSize: nat, received: nat,
                           time1: nat, time2: nat, random: seq<byte>)
    requires FieldsValid(f, buffer)
    requires HandshakeRun(f.handshakeState, buffer[f.readPos..]).state < RTMP_HANDSHAKE_C2
    ensures var hs := HandshakeRun(f.handshakeState, buffer[f.readPos..]);
      StreamData(f, buffer, ackSize, received, time1, time2, random)
      == f.(handshakeState := hs.state, readPos := f.readPos + hs.consumed,
            output := f.output + Reply(hs.c1, time1, time2, random), frameCount := f.frameCount + 1)
  {
  }

  /** After the handshake, a call is the header phase and one window step: the handshake
      state, and with it the handshake, no longer moves. */
  lemma StreamDataAfterC2(f: StreamFields, buffer: seq<byte>, ackSize: nat, received: nat,
                          time1: nat, time2: nat, random: seq<byte>)
    requires FieldsValid(f, buffer) && f.handshakeState == RTMP_HANDSHAKE_C2
    ensures var r := StreamData(f, buffer, ackSize, received, time1, time2, random);
      var c := ChunkHeaderPhase(f.chunkState, f.chunkHeaderLen, f.allPackets, f.currentPacket, buffer[f.readPos..]);
      var a := AckStep(f.inAckSize, f.inLastAck, ackSize, received);
      && r.handshakeState == RTMP_HANDSHAKE_C2
      && r.readPos == f.readPos + c.consumed && r.chunkState == c.state
      && r.allPackets == c.packets && r.currentPacket == c.current
      && r.inAckSize == a.inAckSize && r.inLastAck == a.inLastAck
      && r.output == f.output + AckWrites(a)
  {
  }

  /** A call that completes the handshake hands the rest of the bytes to the chunk
      decoder, starting from BEGIN, in the same call. */
  lemma StreamDataCompletesHandshake(f: StreamFields, buffer: seq<byte>, ackSize: nat, received: nat,
                                     time1: nat, time2: nat, random: seq<byte>)
    requires FieldsValid(f, buffer) && f.handshakeState < RTMP_HANDSHAKE_C2
    requires HandshakeRun(f.handshakeState, buffer[f.readPos..]).state == RTMP_HANDSHAKE_C2
    ensures var hs := HandshakeRun(f.handshakeState, buffer[f.readPos..]);
      var start := f.readPos + hs.consumed;
      var c := ChunkHeaderPhase(CHUNK_STATE_BEGIN, f.chunkHeaderLen, f.allPackets, f.currentPacket, buffer[start..]);
      var r := StreamData(f, buffer, ackSize, received, time1, time2, random);
      && r.readPos == start + c.consumed && r.chunkState == c.state
      && r.output == f.output + Reply(hs.c1, time1, time2, random)
                     + AckWrites(AckStep(f.inAckSize, f.inLastAck, ackSize, received))
  {
  }

  /** Every call counts one more data event. */
  lemma StreamDataCountsCalls(f: StreamFields, buffer: seq<byte>, ackSize: nat, received: nat,
                              time1: nat, time2: nat, random: seq<byte>)
    requires FieldsValid(f, buffer)
    ensures StreamData(f, buffer, ackSize, received, time1, time2, random).frameCount == f.frameCount + 1
  {
  }

  /** The handshake half on the session. */
  method HandshakeStage(s: Session, time1: nat, time2: nat, random: seq<byte>)
    requires FieldsValid(FieldsOf(s), s.buffer)
    modifies s`handshakeState, s`readPos, s`chunkState, s`output
    ensures FieldsOf(s) == HandshakePart(old(FieldsOf(s)), s.buffer, time1, time2, random)
  {
    if s.handshakeState < RTMP_HANDSHAKE_C2 {
      OnHandShake(s, time1, time2, random);
    }
  }

  /** The chunk half on the session. */
  method ChunkStage(s: Session, received: nat)
    requires FieldsValid(FieldsOf(s), s.buffer)
    modifies s`readPos, s`chunkState, s`output, s`chunkHeaderLen, s`allPackets, s`currentPacket,
             s`inAckSize, s`inLastAck
    ensures FieldsOf(s) == ChunkPart(old(FieldsOf(s)), s.buffer, s.ackSize, received)
  {
    if s.handshakeState == RTMP_HANDSHAKE_C2 {
      OnChunkData(s);
      AckStage(s, received);
    }
  }

  /** onStreamData. `received` is the byte measure added to the window counter; `time1`,
      `time2` and `random` are what the handshake reads from the clock and the random
      source if it answers C1 in this call. */
  method OnStreamData(s: Session, received: nat, time1: nat, time2: nat, random: seq<byte>)
    requires s.Valid()
    modifies s`handshakeState, s`readPos, s`chunkState, s`output, s`chunkHeaderLen,
             s`allPackets, s`currentPacket, s`inAckSize, s`inLastAck, s`frameCount
    ensures FieldsOf(s) == StreamData(old(FieldsOf(s)), s.buffer, s.ackSize, received, time1, time2, random)
    ensures s.Valid()
  {
    ValidIsFieldsValid(s);
    HandshakeStage(s, time1, time2, random);
    ChunkStage(s, received);
    s.frameCount := s.frameCount + 1;
    ValidIsFieldsValid(s);
  }

  /** onStreamClose and onStreamError: both tear the session down. */
  method OnStreamClose(s: Session)
    modifies s`isStarting, s`pingTimer, s`videoFpsCountTimer, s`dataCountTimer, s`events
    ensures !s.isStarting
    ensures s.events == old(s.events) + [OnClose]
    ensures old(s.isStarting) ==> s.pingTimer == 0 && s.videoFpsCountTimer == 0 && s.dataCountTimer == 0
    ensures !old(s.isStarting) ==> unchanged(s`pingTimer, s`videoFpsCountTimer, s`dataCountTimer)
  {
    var _, _ := Stop(s);
  }
}
