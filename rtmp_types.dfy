/** The value-like entities of the RTMP core: the reassembled message a handler
    receives, decoded AMF commands and data objects (as records: the AMF0 codec
    is not part of this model), media frames, what a session writes to the peer
    and what it emits to the rest of the server. */
module RtmpTypes {
  import opened Bytes

  datatype Option<+T> = None | Some(value: T)

  /** The fields of a fully reassembled `RtmpPacket` that the handlers read. */
  datatype RtmpMessage = RtmpMessage(msgType: nat, streamId: nat, clock: nat, payload: seq<byte>)

  /** A video message as the video handler wraps it (`new VideoFrame($p->payload, $p->clock)`). */
  datatype VideoFrame = VideoFrame(payload: seq<byte>, clock: nat)

  /** What parsing an AVC sequence parameter set yields for the session. */
  datatype SpsInfo = SpsInfo(width: nat, height: nat, profileName: string, level: nat)

  /** The keys of an `@setDataFrame` object the session reads; None stands for a key
      that is absent or null, and `stereo` holds the truthiness of its value. */
  datatype DataObject = DataObject(
    audiosamplerate: Option<nat>,
    stereo: Option<bool>,
    width: Option<nat>,
    height: Option<nat>,
    framerate: Option<nat>)

  /** A decoded AMF0 data message: its command name and its (possibly missing) object. */
  datatype DataMessage = DataMessage(cmd: string, dataObj: Option<DataObject>)

  /** The metadata frame the session keeps and re-broadcasts. */
  datatype MetaDataFrame = MetaDataFrame(cmd: string, dataObj: Option<DataObject>)

  /** The `connect` command object: the application name and the object encoding, which
      may be absent or null (None). */
  datatype ConnectObject = ConnectObject(app: string, objectEncoding: Option<int>)

  /** A decoded AMF0 invoke message. `streamName` is None when the argument is not a string;
      `flag` is the boolean argument of receiveAudio / receiveVideo. */
  datatype InvokeMessage = InvokeMessage(
    cmd: string,
    transId: int,
    cmdObj: ConnectObject,
    streamName: Option<string>,
    flag: bool)

  /** The outcome of the authorisation hook: a falsy or a truthy definite value, or a
      deferred result that settles later. */
  datatype AuthResult = Falsy | Truthy | Pending

  datatype ServerInfo = ServerInfo(fmsVer: string, capabilities: nat)

  datatype InvokeInfo =
    | StatusInfo(level: string, code: string, description: string)
    | ConnectInfo(level: string, code: string, description: string, objectEncoding: int)
    | NumberInfo(n: nat)

  /** One call of `write()`: raw bytes where the bytes are built by the core, an invoke
      or data message where the bytes come from the AMF0 encoder. */
  datatype Outgoing =
    | Raw(bytes: seq<byte>)
    | Invoke(streamId: nat, cmd: string, transId: int, cmdObj: Option<ServerInfo>, info: InvokeInfo)
    | Data(streamId: nat, cmd: string, bool1: bool, bool2: bool)

  datatype Frame = Video(video: VideoFrame) | MetaData(meta: MetaDataFrame)

  /** Notifications the session emits on its event bus. */
  datatype Event =
    | PreConnect(sessionId: string, cmdObj: ConnectObject)
    | OnClose
    | OnPublishReady
    | OnFrame(frame: Frame)

  datatype BitrateCache = BitrateCache(intervalMs: nat, lastUpdate: nat, bytes: nat)
}
