/** RtmpDataHandlerTrait: `@setDataFrame` metadata. The keys the stream announces
    overwrite the session's media settings one by one; the metadata frame is kept for
    later players and emitted once. */
module RtmpDataHandlerTrait {
  import opened RtmpTypes
  import opened RtmpSession

  /** The session fields an `@setDataFrame` object can set. */
  datatype MediaSettings = MediaSettings(
    audioSamplerate: nat,
    audioChannels: nat,
    videoWidth: nat,
    videoHeight: nat,
    videoFps: nat)

  /** `$key ?? $old`: a present, non-null key wins. */
  function Or(v: Option<nat>, current: nat): nat {
    if v.Some? then v.value else current
  }

  /** The channel count the `stereo` key selects: 2 when truthy, 1 when falsy, the old
      count when it is absent or null. */
  function ChannelsOf(stereo: Option<bool>, current: nat): (r: nat)
    ensures stereo == Some(true) ==> r == 2
    ensures stereo == Some(false) ==> r == 1
    ensures stereo == None ==> r == current
  {
    match stereo
    case Some(b) => if b then 2 else 1
    case None => current
  }

  /** The field updates of `@setDataFrame` for one data object. */
  function MergeMetadata(m: MediaSettings, o: DataObject): MediaSettings {
    MediaSettings(
      Or(o.audiosamplerate, m.audioSamplerate),
      ChannelsOf(o.stereo, m.audioChannels),
      Or(o.width, m.videoWidth),
      Or(o.height, m.videoHeight),
      Or(o.framerate, m.videoFps))
  }

  /** The keys of `b`, and those of `a` that `b` lacks: what two objects announce when
      `b` comes after `a`. */
  function Overlay(a: DataObject, b: DataObject): DataObject {
    DataObject(
      if b.audiosamplerate.Some? then b.audiosamplerate else a.audiosamplerate,
      if b.stereo.Some? then b.stereo else a.stereo,
      if b.width.Some? then b.width else a.width,
      if b.height.Some? then b.height else a.height,
      if b.framerate.Some? then b.framerate else a.framerate)
  }

  /** Each setting follows its own key: it becomes the announced value when the key is
      present and keeps the old value otherwise, whatever the other keys say. */
  lemma MergeFieldwise(m: MediaSettings, o: DataObject)
    ensures var r := MergeMetadata(m, o);
      && r.audioSamplerate == (if o.audiosamplerate.Some? then o.audiosamplerate.value else m.audioSamplerate)
      && r.videoWidth == (if o.width.Some? then o.width.value else m.videoWidth)
      && r.videoHeight == (if o.height.Some? then o.height.value else m.videoHeight)
      && r.videoFps == (if o.framerate.Some? then o.framerate.value else m.videoFps)
      && (o.stereo.None? ==> r.audioChannels == m.audioChannels)
      && (o.stereo.Some? ==> r.audioChannels in {1, 2})
  {
  }

  /** An object without any of the keys changes nothing. */
  lemma MergeEmptyKeepsAll(m: MediaSettings)
    ensures MergeMetadata(m, DataObject(None, None, None, None, None)) == m
  {
  }

  /** Announcing the same object twice has the effect of announcing it once. */
  lemma MergeIdempotent(m: MediaSettings, o: DataObject)
    ensures MergeMetadata(MergeMetadata(m, o), o) == MergeMetadata(m, o)
  {
  }

  /** Two announcements in a row act as one announcement of their overlay: the latest
      present key wins, key by key. */
  lemma MergeCompose(m: MediaSettings, a: DataObject, b: DataObject)
    ensures MergeMetadata(MergeMetadata(m, a), b) == MergeMetadata(m, Overlay(a, b))
  {
  }

  /** The settings of a session as a record. */
  function SettingsOf(s: Session): MediaSettings
    reads s
  {
    MediaSettings(s.audioSamplerate, s.audioChannels, s.videoWidth, s.videoHeight, s.videoFps)
  }

  /** rtmpDataHandler for the decoded data message of the current packet. */
  method RtmpDataHandler(s: Session, msg: DataMessage)
    modifies s`audioSamplerate, s`audioChannels, s`videoWidth, s`videoHeight, s`videoFps,
             s`isMetaData, s`metaDataFrame, s`events
    ensures msg.cmd != "@setDataFrame" ==>
              unchanged(s`audioSamplerate, s`audioChannels, s`videoWidth, s`videoHeight, s`videoFps,
                        s`isMetaData, s`metaDataFrame, s`events)
    ensures msg.cmd == "@setDataFrame" ==>
              && SettingsOf(s) == (if msg.dataObj.Some? then MergeMetadata(old(SettingsOf(s)), msg.dataObj.value)
                                   else old(SettingsOf(s)))
              && s.isMetaData
              && s.metaDataFrame == Some(MetaDataFrame("onMetaData", msg.dataObj))
              && s.events == old(s.events) + [OnFrame(MetaData(MetaDataFrame("onMetaData", msg.dataObj)))]
  {
    if msg.cmd == "@setDataFrame" {
      if msg.dataObj.Some? {
        var o := msg.dataObj.value;
        s.audioSamplerate := Or(o.audiosamplerate, s.audioSamplerate);
        s.audioChannels := ChannelsOf(o.stereo, s.audioChannels);
        s.videoWidth := Or(o.width, s.videoWidth);
        s.videoHeight := Or(o.height, s.videoHeight);
        s.videoFps := Or(o.framerate, s.videoFps);
      }
      s.isMetaData := true;
      var frame := MetaDataFrame("onMetaData", msg.dataObj);
      s.metaDataFrame := Some(frame);
      s.events := s.events + [OnFrame(MetaData(frame))];
    }
  }
}
