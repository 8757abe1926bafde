/** RtmpVideoHandlerTrait: the video bookkeeping of a publishing session. Each video
    message is wrapped as a frame whose first byte carries the FLV VIDEODATA fields of
    the FLV file format specification v10, Annex E (E.4.3.1): FrameType in the high
    four bits, CodecID in the low four. For AVC (CodecID 7) the AVCVIDEOPACKET header
    follows. The session latches the codec, counts frames until the frame rate is
    known, keeps the latest sequence header and maintains the GOP cache: the frames
    since the last key frame, replayed to players that join late. */
module RtmpVideoHandlerTrait {
  import opened Bytes
  import opened RtmpTypes
  import opened RtmpSession
  import opened MediaReader

  const VIDEO_FRAME_TYPE_KEY_FRAME: nat := 1
  const VIDEO_CODEC_ID_AVC: nat := 7

  /** The first payload byte; an empty payload reads as 0. */
  function FirstByte(f: VideoFrame): byte {
    if |f.payload| > 0 then f.payload[0] else 0
  }

  /** FrameType: the high four bits of the first byte. */
  function FrameType(f: VideoFrame): (t: nat)
    ensures t < 16
  {
    FirstByte(f) as nat / 16
  }

  /** CodecID: the low four bits of the first byte. */
  function CodecId(f: VideoFrame): (c: nat)
    ensures c < 16
    ensures FrameType(f) * 16 + c == FirstByte(f) as nat
  {
    FirstByte(f) as nat % 16
  }

  /** A frame the AVC branch handles: codec 7 with a full AVCVIDEOPACKET header after
      the VIDEODATA byte. */
  predicate IsAvc(f: VideoFrame) {
    CodecId(f) == VIDEO_CODEC_ID_AVC && |f.payload| >= 5
  }

  /** AVCPacketType, the byte after the VIDEODATA byte. */
  function AvcPacketType(f: VideoFrame): (t: nat)
    requires IsAvc(f)
    ensures t == ParseAvcHeader(f.payload[1..]).avcPacketType
  {
    f.payload[1] as nat
  }

  // ---------------------------------------------------------------------------
  // The GOP cache

  /** The sequence flag and the GOP cache. */
  datatype GopState = GopState(isAVCSequence: bool, gop: seq<VideoFrame>)

  /** A key frame carrying NAL units: the start of a new group of pictures. */
  predicate IsKeyNalu(f: VideoFrame) {
    IsAvc(f) && FrameType(f) == VIDEO_FRAME_TYPE_KEY_FRAME && AvcPacketType(f) == AVC_PACKET_TYPE_NALU
  }

  /** A sequence header sent as a key frame: the one kind of AVC frame the cache skips. */
  predicate IsKeySequenceHeader(f: VideoFrame) {
    IsAvc(f) && FrameType(f) == VIDEO_FRAME_TYPE_KEY_FRAME && AvcPacketType(f) == AVC_PACKET_TYPE_SEQUENCE_HEADER
  }

  predicate IsSequenceHeader(f: VideoFrame) {
    IsAvc(f) && AvcPacketType(f) == AVC_PACKET_TYPE_SEQUENCE_HEADER
  }

  /** What one video frame does to the sequence flag and the cache: an AVC sequence
      header sets the flag; once it is set, a key NALU empties the cache and every AVC
      frame except a key sequence header is appended. */
  function GopStep(st: GopState, f: VideoFrame): GopState {
    if !IsAvc(f) then st
    else
      var started := st.isAVCSequence || IsSequenceHeader(f);
      if !started then st
      else
        var kept := if IsKeyNalu(f) then [] else st.gop;
        GopState(true, if IsKeySequenceHeader(f) then kept else kept + [f])
  }

  /** The state after a sequence of frames. */
  function GopRun(st: GopState, frames: seq<VideoFrame>): GopState
    decreases |frames|
  {
    if frames == [] then st else GopRun(GopStep(st, frames[0]), frames[1..])
  }

  /** Running two sequences one after the other is running their concatenation. */
  lemma {:induction false} GopRunAppend(st: GopState, a: seq<VideoFrame>, b: seq<VideoFrame>)
    ensures GopRun(st, a + b) == GopRun(GopRun(st, a), b)
    decreases |a|
  {
    if a != [] {
      assert (a + b)[0] == a[0] && (a + b)[1..] == a[1..] + b;
      GopRunAppend(GopStep(st, a[0]), a[1..], b);
    } else {
      assert a + b == b;
    }
  }

  /** A key NALU after the sequence has started leaves exactly that frame in the cache. */
  lemma KeyNaluRestartsGop(st: GopState, f: VideoFrame)
    requires st.isAVCSequence && IsKeyNalu(f)
    ensures GopStep(st, f) == GopState(true, [f])
  {
  }

  /** Until an AVC sequence header arrives, neither the flag nor the cache changes. */
  lemma {:induction false} NothingBeforeSequenceHeader(st: GopState, frames: seq<VideoFrame>)
    requires !st.isAVCSequence
    requires forall i :: 0 <= i < |frames| ==> !IsSequenceHeader(frames[i])
    ensures GopRun(st, frames) == st
    decreases |frames|
  {
    if frames != [] {
      assert GopStep(st, frames[0]) == st;
      NothingBeforeSequenceHeader(st, frames[1..]);
    }
  }

  /** Frames of other codecs (or too short to carry an AVC header) change nothing. */
  lemma {:induction false} NonAvcFramesIgnored(st: GopState, frames: seq<VideoFrame>)
    requires forall i :: 0 <= i < |frames| ==> !IsAvc(frames[i])
    ensures GopRun(st, frames) == st
    decreases |frames|
  {
    if frames != [] {
      NonAvcFramesIgnored(GopStep(st, frames[0]), frames[1..]);
    }
  }

  /** Once the sequence has started, AVC frames that are neither key NALUs nor key
      sequence headers are appended at the end in arrival order. */
  lemma {:induction false} GopAppendsInOrder(st: GopState, frames: seq<VideoFrame>)
    requires st.isAVCSequence
    requires forall i :: 0 <= i < |frames| ==>
               IsAvc(frames[i]) && !IsKeyNalu(frames[i]) && !IsKeySequenceHeader(frames[i])
    ensures GopRun(st, frames) == GopState(true, st.gop + frames)
    decreases |frames|
  {
    if frames != [] {
      var next := GopStep(st, frames[0]);
      assert next == GopState(true, st.gop + [frames[0]]);
      GopAppendsInOrder(next, frames[1..]);
      assert st.gop + [frames[0]] + frames[1..] == st.gop + frames;
    }
  }

  /** After a key NALU, the cache is that frame followed by the frames appended since:
      a late player always starts from the last key frame. */
  lemma GopStartsAtLastKeyFrame(st: GopState, key: VideoFrame, frames: seq<VideoFrame>)
    requires st.isAVCSequence && IsKeyNalu(key)
    requires forall i :: 0 <= i < |frames| ==>
               IsAvc(frames[i]) && !IsKeyNalu(frames[i]) && !IsKeySequenceHeader(frames[i])
    ensures GopRun(st, [key] + frames) == GopState(true, [key] + frames)
  {
    GopRunAppend(st, [key], frames);
    assert GopRun(st, [key]) == GopStep(GopRun(st, []), key);
    KeyNaluRestartsGop(st, key);
    GopAppendsInOrder(GopState(true, [key]), frames);
  }

  // ---------------------------------------------------------------------------
  // The codec latch

  /** `if ($this->videoCodec == 0) $this->videoCodec = $videoFrame->codecId;` */
  function LatchCodec(codec: nat, f: VideoFrame): nat {
    if codec == 0 then CodecId(f) else codec
  }

  function CodecRun(codec: nat, frames: seq<VideoFrame>): nat
    decreases |frames|
  {
    if frames == [] then codec else CodecRun(LatchCodec(codec, frames[0]), frames[1..])
  }

  /** The codec id of the first frame with a nonzero one, 0 when there is none. */
  function FirstCodec(frames: seq<VideoFrame>): (c: nat)
    ensures c == 0 <==> forall i :: 0 <= i < |frames| ==> CodecId(frames[i]) == 0
    decreases |frames|
  {
    if frames == [] then 0
    else if CodecId(frames[0]) != 0 then CodecId(frames[0])
    else FirstCodec(frames[1..])
  }

  /** A latched codec never changes. */
  lemma {:induction false} LatchedCodecStays(codec: nat, frames: seq<VideoFrame>)
    requires codec != 0
    ensures CodecRun(codec, frames) == codec
    decreases |frames|
  {
    if frames != [] {
      LatchedCodecStays(codec, frames[1..]);
    }
  }

  /** Starting from no codec, the session ends up with the codec of the first frame that
      names one. */
  lemma {:induction false} CodecLatchesFirst(frames: seq<VideoFrame>)
    ensures CodecRun(0, frames) == FirstCodec(frames)
    decreases |frames|
  {
    if frames != [] {
      if CodecId(frames[0]) != 0 {
        LatchedCodecStays(CodecId(frames[0]), frames[1..]);
      } else {
        CodecLatchesFirst(frames[1..]);
      }
    }
  }

  // ---------------------------------------------------------------------------
  // The handler

  function GopOf(s: Session): GopState
    reads s
  {
    GopState(s.isAVCSequence, s.gopCacheQueue)
  }

  /** rtmpVideoHandler for the frame of the current packet. `fpsTimerId` is the handle
      `Timer::add` returns for the frame-rate sampling timer, `codecName` the codec-name
      table of `VideoFrame`, `parseSps` the sequence parameter set parser. */
  method RtmpVideoHandler(s: Session, frame: VideoFrame, fpsTimerId: nat,
                          codecName: nat -> string, parseSps: seq<byte> -> SpsInfo)
    modifies s`videoCodec, s`videoCodecName, s`videoCount, s`videoFpsCountTimer,
             s`isAVCSequence, s`avcSequenceHeaderFrame, s`videoWidth, s`videoHeight,
             s`videoProfileName, s`videoLevel, s`gopCacheQueue, s`events
    ensures s.videoCodec == LatchCodec(old(s.videoCodec), frame)
    ensures s.videoCodecName == if old(s.videoCodec) == 0 then codecName(CodecId(frame)) else old(s.videoCodecName)
    ensures s.videoCount == if s.videoFps == 0 then old(s.videoCount) + 1 else old(s.videoCount)
    ensures s.videoFpsCountTimer == if s.videoFps == 0 && old(s.videoCount) == 0 then fpsTimerId
                                    else old(s.videoFpsCountTimer)
    ensures GopOf(s) == GopStep(old(GopOf(s)), frame)
    ensures IsSequenceHeader(frame) ==>
              var sps := parseSps(frame.payload[5..]);
              && s.avcSequenceHeaderFrame == Some(frame)
              && s.videoWidth == sps.width && s.videoHeight == sps.height
              && s.videoProfileName == sps.profileName && s.videoLevel == sps.level
    ensures !IsSequenceHeader(frame) ==>
              unchanged(s`avcSequenceHeaderFrame, s`videoWidth, s`videoHeight, s`videoProfileName, s`videoLevel)
    ensures s.events == old(s.events) + [OnFrame(Video(frame))]
  {
    CountStage(s, frame, fpsTimerId, codecName);
    AvcStage(s, frame, parseSps);
    s.events := s.events + [OnFrame(Video(frame))];
  }

  /** The codec is latched by the first frame, and frames are counted until a rate is
      known; the first counted frame starts the rate timer. */
  method CountStage(s: Session, frame: VideoFrame, fpsTimerId: nat, codecName: nat -> string)
    modifies s`videoCodec, s`videoCodecName, s`videoCount, s`videoFpsCountTimer
    ensures s.videoCodec == LatchCodec(old(s.videoCodec), frame)
    ensures s.videoCodecName == if old(s.videoCodec) == 0 then codecName(CodecId(frame)) else old(s.videoCodecName)
    ensures s.videoCount == if s.videoFps == 0 then old(s.videoCount) + 1 else old(s.videoCount)
    ensures s.videoFpsCountTimer == if s.videoFps == 0 && old(s.videoCount) == 0 then fpsTimerId
                                    else old(s.videoFpsCountTimer)
  {
    if s.videoCodec == 0 {
      s.videoCodec := CodecId(frame);
      s.videoCodecName := codecName(CodecId(frame));
    }
    if s.videoFps == 0 {
      if s.videoCount == 0 {
        s.videoFpsCountTimer := fpsTimerId;
      }
      s.videoCount := s.videoCount + 1;
    }
  }

  /** The AVC branch: a sequence header updates the picture fields, and every AVC frame
      goes through the group-of-pictures cache. Other codecs change nothing here. */
  method AvcStage(s: Session, frame: VideoFrame, parseSps: seq<byte> -> SpsInfo)
    modifies s`isAVCSequence, s`avcSequenceHeaderFrame, s`videoWidth, s`videoHeight,
             s`videoProfileName, s`videoLevel, s`gopCacheQueue
    ensures GopOf(s) == GopStep(old(GopOf(s)), frame)
    ensures IsSequenceHeader(frame) ==>
              var sps := parseSps(frame.payload[5..]);
              && s.avcSequenceHeaderFrame == Some(frame)
              && s.videoWidth == sps.width && s.videoHeight == sps.height
              && s.videoProfileName == sps.profileName && s.videoLevel == sps.level
    ensures !IsSequenceHeader(frame) ==>
              unchanged(s`avcSequenceHeaderFrame, s`videoWidth, s`videoHeight, s`videoProfileName, s`videoLevel)
  {
    if IsAvc(frame) {
      var avcPack := new AvcPacket(frame.payload, 1);
      assert frame.payload[1..][0] == frame.payload[1];
      var packetType := avcPack.avcPacketType;
      if packetType == AVC_PACKET_TYPE_SEQUENCE_HEADER {
        SequenceHeaderStage(s, frame, avcPack, parseSps);
      }
      GopStage(s, frame, packetType);
    }
  }

  /** The sequence-header branch: the flag is set, the frame kept, and the picture
      fields taken from the parameter set that follows the AVC header. */
  method SequenceHeaderStage(s: Session, frame: VideoFrame, avcPack: AvcPacket, parseSps: seq<byte> -> SpsInfo)
    requires IsSequenceHeader(frame)
    requires avcPack.stream == frame.payload && avcPack.pos == 5 && avcPack.avcSequenceParameterSet == None
    modifies s`isAVCSequence, s`avcSequenceHeaderFrame, s`videoWidth, s`videoHeight,
             s`videoProfileName, s`videoLevel, avcPack`pos, avcPack`avcSequenceParameterSet
    ensures s.isAVCSequence && s.avcSequenceHeaderFrame == Some(frame)
    ensures var sps := parseSps(frame.payload[5..]);
      && s.videoWidth == sps.width && s.videoHeight == sps.height
      && s.videoProfileName == sps.profileName && s.videoLevel == sps.level
  {
    s.isAVCSequence := true;
    s.avcSequenceHeaderFrame := Some(frame);
    var specificConfig := avcPack.GetAVCSequenceParameterSet(parseSps);
    s.videoWidth := specificConfig.width;
    s.videoHeight := specificConfig.height;
    s.videoProfileName := specificConfig.profileName;
    s.videoLevel := specificConfig.level;
  }

  /** The cache update once the sequence flag has been brought up to date. */
  method GopStage(s: Session, frame: VideoFrame, packetType: nat)
    requires IsAvc(frame) && packetType == AvcPacketType(frame)
    requires IsSequenceHeader(frame) ==> s.isAVCSequence
    modifies s`gopCacheQueue
    ensures GopOf(s) == GopStep(GopState(s.isAVCSequence && !IsSequenceHeader(frame), old(s.gopCacheQueue)), frame)
  {
    if s.isAVCSequence {
      if FrameType(frame) == VIDEO_FRAME_TYPE_KEY_FRAME && packetType == AVC_PACKET_TYPE_NALU {
        s.gopCacheQueue := [];
      }
      if FrameType(frame) == VIDEO_FRAME_TYPE_KEY_FRAME && packetType == AVC_PACKET_TYPE_SEQUENCE_HEADER {
      } else {
        s.gopCacheQueue := s.gopCacheQueue + [frame];
      }
    }
  }

  /** The frame-rate timer callback: the frames counted in five seconds, divided by
      five and rounded up, and the timer handle cleared. */
  method FpsTimerFired(s: Session)
    modifies s`videoFps, s`videoFpsCountTimer
    ensures 5 * s.videoFps >= s.videoCount
    ensures s.videoFps > 0 ==> 5 * (s.videoFps - 1) < s.videoCount
    ensures s.videoFpsCountTimer == 0
  {
    s.videoFps := (s.videoCount + 4) / 5;
    s.videoFpsCountTimer := 0;
  }
}
