/** `rtmpControlHandler`: the protocol control messages of section 5.4 of the
    Adobe RTMP specification as the session handles them. Set Chunk Size and
    Window Acknowledgement Size store their 32-bit big-endian value; Abort,
    Acknowledgement and Set Peer Bandwidth are ignored. */
module RtmpControlHandlerTrait {
  import opened Bytes
  import opened RtmpTypes
  import opened RtmpConstants
  import opened RtmpSession

  /** `list(, $x) = unpack("N", $payload)`: the first four bytes big-endian; on a shorter
      payload `unpack` fails and the field receives null, which the model writes as 0. */
  function U32Payload(payload: seq<byte>): (r: nat)
    ensures r < TWO32
    ensures |payload| >= 4 ==> r == ReadBe32(payload[..4])
    ensures |payload| < 4 ==> r == 0
  {
    if |payload| >= 4 then ReadBe32(payload[..4]) else 0
  }

  /** A payload that starts with a value written by `pack('N')` yields that value. */
  lemma U32PayloadReadsBe32(v: nat, rest: seq<byte>)
    requires v < TWO32
    ensures U32Payload(Be32(v) + rest) == v
  {
    assert (Be32(v) + rest)[..4] == Be32(v);
    Be32RoundTrip(v);
  }

  /** rtmpControlHandler on the current message `p`. */
  method RtmpControlHandler(s: Session, p: RtmpMessage)
    modifies s`inChunkSize, s`ackSize
    ensures s.inChunkSize == if p.msgType == TYPE_SET_CHUNK_SIZE then U32Payload(p.payload) else old(s.inChunkSize)
    ensures s.ackSize == if p.msgType == TYPE_WINDOW_ACKNOWLEDGEMENT_SIZE then U32Payload(p.payload) else old(s.ackSize)
  {
    if p.msgType == TYPE_SET_CHUNK_SIZE {
      s.inChunkSize := U32Payload(p.payload);
    } else if p.msgType == TYPE_ABORT {
    } else if p.msgType == TYPE_ACKNOWLEDGEMENT {
    } else if p.msgType == TYPE_WINDOW_ACKNOWLEDGEMENT_SIZE {
      s.ackSize := U32Payload(p.payload);
    } else if p.msgType == TYPE_SET_PEER_BANDWIDTH {
    }
  }
}
