/** RtmpTrait: the dispatch of a reassembled message to the handler of its
    type, and `stop()`, the teardown guarded by `isStarting`. */
module RtmpTrait {
  import opened RtmpTypes
  import opened RtmpConstants
  import opened RtmpSession

  datatype Handler =
    | ControlHandler
    | EventHandler
    | AudioHandler
    | VideoHandler
    | InvokeHandler
    | DataHandler
    | NoHandler

  /** The switch of `rtmpHandler` on the message type. */
  function HandlerFor(msgType: nat): (h: Handler)
    ensures h == ControlHandler <==>
              msgType in {TYPE_SET_CHUNK_SIZE, TYPE_ABORT, TYPE_ACKNOWLEDGEMENT,
                          TYPE_WINDOW_ACKNOWLEDGEMENT_SIZE, TYPE_SET_PEER_BANDWIDTH}
    ensures h == EventHandler <==> msgType == TYPE_EVENT
    ensures h == AudioHandler <==> msgType == TYPE_AUDIO
    ensures h == VideoHandler <==> msgType == TYPE_VIDEO
    ensures h == InvokeHandler <==> msgType in {TYPE_FLEX_MESSAGE, TYPE_INVOKE}
    ensures h == DataHandler <==> msgType in {TYPE_FLEX_STREAM, TYPE_DATA}
  {
    if msgType in {TYPE_SET_CHUNK_SIZE, TYPE_ABORT, TYPE_ACKNOWLEDGEMENT,
                   TYPE_WINDOW_ACKNOWLEDGEMENT_SIZE, TYPE_SET_PEER_BANDWIDTH} then ControlHandler
    else if msgType == TYPE_EVENT then EventHandler
    else if msgType == TYPE_AUDIO then AudioHandler
    else if msgType == TYPE_VIDEO then VideoHandler
    else if msgType in {TYPE_FLEX_MESSAGE, TYPE_INVOKE} then InvokeHandler
    else if msgType in {TYPE_FLEX_STREAM, TYPE_DATA} then DataHandler
    else NoHandler
  }

  /** The message types some handler takes: 1-6, 8, 9, 15, 17, 18 and 20. */
  const HANDLED_TYPES: set<nat> := {1, 2, 3, 4, 5, 6, 8, 9, 15, 17, 18, 20}

  /** Exactly the twelve handled types reach a handler; type 7 (unused by the RTMP
      specification), 16, 19 (shared objects) and 22 (aggregate) among others are
      dropped. */
  lemma UnhandledTypesAreDropped(msgType: nat)
    ensures HandlerFor(msgType) == NoHandler <==> msgType !in HANDLED_TYPES
  {
  }

  /** stop(). Returns the stream ids `onDeleteStream` is called with and the timer
      handles passed to `Timer::del`, in call order. */
  method Stop(s: Session) returns (deletedStreams: seq<nat>, cancelledTimers: seq<nat>)
    modifies s`isStarting, s`pingTimer, s`videoFpsCountTimer, s`dataCountTimer, s`events
    ensures !s.isStarting
    ensures s.events == old(s.events) + [OnClose]
    ensures old(s.isStarting) ==>
              && s.pingTimer == 0 && s.videoFpsCountTimer == 0 && s.dataCountTimer == 0
              && deletedStreams == (if s.playStreamId > 0 then [s.playStreamId] else [])
                                   + (if s.publishStreamId > 0 then [s.publishStreamId] else [])
              && cancelledTimers == (if old(s.pingTimer) != 0 then [old(s.pingTimer)] else [])
                                    + (if old(s.videoFpsCountTimer) != 0 then [old(s.videoFpsCountTimer)] else [])
                                    + (if old(s.dataCountTimer) != 0 then [old(s.dataCountTimer)] else [])
    ensures !old(s.isStarting) ==>
              && s.pingTimer == old(s.pingTimer) && s.videoFpsCountTimer == old(s.videoFpsCountTimer)
              && s.dataCountTimer == old(s.dataCountTimer)
              && deletedStreams == [] && cancelledTimers == []
  {
    deletedStreams, cancelledTimers := [], [];
    if s.isStarting {
      s.isStarting := false;
      if s.playStreamId > 0 {
        deletedStreams := deletedStreams + [s.playStreamId];
      }
      if s.publishStreamId > 0 {
        deletedStreams := deletedStreams + [s.publishStreamId];
      }
      if s.pingTimer != 0 {
        cancelledTimers := cancelledTimers + [s.pingTimer];
        s.pingTimer := 0;
      }
      if s.videoFpsCountTimer != 0 {
        cancelledTimers := cancelledTimers + [s.videoFpsCountTimer];
        s.videoFpsCountTimer := 0;
      }
      if s.dataCountTimer != 0 {
        cancelledTimers := cancelledTimers + [s.dataCountTimer];
        s.dataCountTimer := 0;
      }
    }
    s.events := s.events + [OnClose];
  }
}
