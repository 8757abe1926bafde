/** RtmpInvokeHandlerTrait: the command-level state machine of a session. The AMF0
    command has already been decoded into an `InvokeMessage`; replies built by the
    AMF0 encoder are recorded as `Invoke`/`Data` records, replies built from bytes by
    the core as `Raw` bytes. The server registry is a `MediaRegistry` and the outcome
    of the authorisation hook an `AuthResult` parameter. */
module RtmpInvokeHandlerTrait {
  import opened Bytes
  import opened RtmpTypes
  import opened RtmpConstants
  import opened RtmpChunkCodec
  import opened RtmpSession
  import opened RtmpChunkHandlerTrait
  import opened RtmpTrait

  // ---------------------------------------------------------------------------
  // Names and paths

  /** `str_replace('/', '', $app)`: the application name without its slashes. */
  function StripSlashes(s: string): (r: string)
    ensures forall i :: 0 <= i < |r| ==> r[i] != '/'
    ensures |r| <= |s|
    ensures (forall i :: 0 <= i < |s| ==> s[i] != '/') ==> r == s
  {
    if s == [] then []
    else if s[0] == '/' then StripSlashes(s[1..])
    else [s[0]] + StripSlashes(s[1..])
  }

  /** Removing slashes works piece by piece: it distributes over concatenation. */
  lemma {:induction false} StripSlashesConcat(a: string, b: string)
    ensures StripSlashes(a + b) == StripSlashes(a) + StripSlashes(b)
    decreases |a|
  {
    if a != [] {
      assert (a + b)[0] == a[0] && (a + b)[1..] == a[1..] + b;
      StripSlashesConcat(a[1..], b);
    } else {
      assert a + b == b;
    }
  }

  /** Only slashes go: every other character keeps its number of occurrences. */
  lemma {:induction false} StripSlashesKeepsOthers(s: string, c: char)
    requires c != '/'
    ensures multiset(StripSlashes(s))[c] == multiset(s)[c]
    ensures multiset(StripSlashes(s))['/'] == 0
    decreases |s|
  {
    if s != [] {
      StripSlashesKeepsOthers(s[1..], c);
      assert s == [s[0]] + s[1..];
      assert multiset(s) == multiset([s[0]]) + multiset(s[1..]);
    }
  }

  /** A stripped name is stripped already: connecting twice with the same name stores
      the same application name. */
  lemma StripSlashesIdempotent(s: string)
    ensures StripSlashes(StripSlashes(s)) == StripSlashes(s)
  {
  }

  /** `explode('?', $name)[0]`: the text before the first '?'. */
  function BeforeQuestion(s: string): (r: string)
    ensures r <= s
    ensures forall i :: 0 <= i < |r| ==> r[i] != '?'
    ensures |r| < |s| ==> s[|r|] == '?'
  {
    if s == [] then []
    else if s[0] == '?' then []
    else [s[0]] + BeforeQuestion(s[1..])
  }

  /** The three facts above single the prefix out: any prefix free of '?' that ends at
      the end of the name or at a '?' is the text before the first '?'. */
  lemma {:induction false} BeforeQuestionUnique(s: string, p: string)
    requires p <= s
    requires forall i :: 0 <= i < |p| ==> p[i] != '?'
    requires |p| < |s| ==> s[|p|] == '?'
    ensures p == BeforeQuestion(s)
    decreases |s|
  {
    if s != [] && s[0] != '?' {
      assert |p| > 0;
      BeforeQuestionUnique(s[1..], p[1..]);
    }
  }

  /** `explode('?', $name)[1] ?? ''`: the text between the first and the second '?',
      empty when the name has no '?'. The query arguments are kept as this text. */
  function QueryPart(s: string): (r: string)
    ensures |BeforeQuestion(s)| == |s| ==> r == ""
    ensures |BeforeQuestion(s)| < |s| ==> r == BeforeQuestion(s[|BeforeQuestion(s)| + 1..])
  {
    var head := BeforeQuestion(s);
    if |head| < |s| then BeforeQuestion(s[|head| + 1..]) else ""
  }

  /** `'/' . $this->appName . '/' . $streamInfo[0]` */
  function StreamPath(app: string, name: string): (r: string)
    ensures |r| == |app| + 2 + |BeforeQuestion(name)|
    ensures r[0] == '/' && r[|app| + 1] == '/'
    ensures r[1..|app| + 1] == app && r[|app| + 2..] == BeforeQuestion(name)
  {
    "/" + app + "/" + BeforeQuestion(name)
  }

  /** A query string does not reach the path: a name and the same name with `?args`
      appended address the same stream. */
  lemma StreamPathIgnoresQuery(app: string, name: string, args: string)
    requires forall i :: 0 <= i < |name| ==> name[i] != '?'
    ensures StreamPath(app, name + "?" + args) == StreamPath(app, name)
    ensures QueryPart(name + "?" + args) == BeforeQuestion(args)
  {
    var s := name + "?" + args;
    BeforeQuestionUnique(s, name);
    BeforeQuestionUnique(name, name);
    assert s[|name| + 1..] == args;
  }

  // ---------------------------------------------------------------------------
  // Replies

  const STREAM_STATUS_TEMPLATE: seq<byte> :=
    [0x02, 0x00, 0x00, 0x00, 0x00, 0x00, 0x06, 0x04, 0x00,
     0x00, 0x00, 0x00, 0x00, 0x00, 0x00, 0x00, 0x00, 0x00]

  /** The bytes `sendStreamStatus($st, $id)` writes: the template with bytes 12.. replaced
      by `pack('nN', $st, $id)`. */
  function StreamStatusMessage(st: nat, id: nat): seq<byte> {
    SubstrReplaceFrom(STREAM_STATUS_TEMPLATE, Be16(st) + Be32(id), 12)
  }

  /** A stream status is an 18-byte user control message (type 4) on chunk stream 2:
      the event type in bytes 12-13 and the stream id in bytes 14-17, both big-endian. */
  lemma StreamStatusLayout(st: nat, id: nat)
    ensures |StreamStatusMessage(st, id)| == 18
    ensures IsProtocolControl(StreamStatusMessage(st, id), TYPE_EVENT, Be16(st) + Be32(id))
    ensures ReadBe16(StreamStatusMessage(st, id)[12..14]) == st % TWO16
    ensures ReadBe32(StreamStatusMessage(st, id)[14..18]) == id % TWO32
  {
    Be16RoundTrip(st);
    Be32RoundTrip(id);
    assert Be32(0)[1..] == [0, 0, 0];
    assert Be32(6)[1..] == [0, 0, 6];
    assert Le32(0) == [0, 0, 0, 0];
  }

  /** What `sendStatusMessage($sid, $level, $code, $description)` writes. */
  function StatusMessage(sid: nat, level: string, code: string, description: string): Outgoing {
    Invoke(sid, "onStatus", 0, None, StatusInfo(level, code, description))
  }

  /** What `sendRtmpSampleAccess($sid)` writes. */
  function SampleAccessMessage(sid: nat): Outgoing {
    Data(sid, "|RtmpSampleAccess", false, false)
  }

  /** The object encoding `onConnect` stores: the command object's, or 0 when it is
      absent or null. */
  function EncodingOf(obj: ConnectObject): int {
    if obj.objectEncoding.Some? then obj.objectEncoding.value else 0
  }

  /** What `responseConnect($tid)` writes. */
  function ConnectResult(tid: int, objectEncoding: int): Outgoing {
    Invoke(0, "_result", tid, Some(ServerInfo("FMS/3,0,1,123", 31)),
           ConnectInfo("status", "NetConnection.Connect.Success", "Connection succeeded.", objectEncoding))
  }

  /** The four writes of an accepted `connect`, in order. */
  function ConnectReplies(outChunkSize: nat, tid: int, objectEncoding: int): seq<Outgoing> {
    [Raw(WindowAckMessage(5000000)), Raw(PeerBandwidthMessage(5000000, 2)),
     Raw(SetChunkSizeMessage(outChunkSize)), ConnectResult(tid, objectEncoding)]
  }

  /** Reading the connect replies back: a window acknowledgement size of 5000000, a
      dynamic (type 2) peer bandwidth of 5000000, the outgoing chunk size, and then the
      `_result` on stream 0 that answers the request's transaction id with the
      connection's object encoding. */
  lemma ConnectRepliesLayout(outChunkSize: nat, tid: int, objectEncoding: int)
    requires outChunkSize < TWO32
    ensures var r := ConnectReplies(outChunkSize, tid, objectEncoding);
      && |r| == 4 && r[0].Raw? && r[1].Raw? && r[2].Raw?
      && r[0].bytes[7] == TYPE_WINDOW_ACKNOWLEDGEMENT_SIZE && ReadBe32(r[0].bytes[12..]) == 5000000
      && r[1].bytes[7] == TYPE_SET_PEER_BANDWIDTH && ReadBe32(r[1].bytes[12..16]) == 5000000
      && r[1].bytes[16] == 2
      && r[2].bytes[7] == TYPE_SET_CHUNK_SIZE && ReadBe32(r[2].bytes[12..]) == outChunkSize
      && r[3].Invoke? && r[3].streamId == 0 && r[3].cmd == "_result" && r[3].transId == tid
      && r[3].info.ConnectInfo? && r[3].info.objectEncoding == objectEncoding
  {
    WindowAckFields(5000000);
    PeerBandwidthFields(5000000, 2);
    SetChunkSizeFields(outChunkSize);
  }

  lemma WindowAckFields(size: nat)
    requires size < TWO32
    ensures var m := WindowAckMessage(size);
      |m| == 16 && m[7] == TYPE_WINDOW_ACKNOWLEDGEMENT_SIZE && ReadBe32(m[12..]) == size
  {
    var m := WindowAckMessage(size);
    assert m[12..] == Be32(size);
    assert m[7] == m[..12][7];
    Be32RoundTrip(size);
  }

  lemma SetChunkSizeFields(size: nat)
    requires size < TWO32
    ensures var m := SetChunkSizeMessage(size);
      |m| == 16 && m[7] == TYPE_SET_CHUNK_SIZE && ReadBe32(m[12..]) == size
  {
    var m := SetChunkSizeMessage(size);
    assert m[12..] == Be32(size);
    assert m[7] == m[..12][7];
    Be32RoundTrip(size);
  }

  lemma PeerBandwidthFields(size: nat, limitType: nat)
    requires size < TWO32 && limitType < 256
    ensures var m := PeerBandwidthMessage(size, limitType);
      |m| == 17 && m[7] == TYPE_SET_PEER_BANDWIDTH && ReadBe32(m[12..16]) == size && m[16] == limitType
  {
    var m := PeerBandwidthMessage(size, limitType);
    assert m[12..] == Be32(size) + [limitType as byte];
    assert m[12..16] == Be32(size);
    assert m[7] == m[..12][7];
    Be32RoundTrip(size);
  }

  /** The four writes of `respondPlay()`, in order. */
  function PlayReplies(playStreamId: nat): seq<Outgoing> {
    [Raw(StreamStatusMessage(STREAM_BEGIN, playStreamId)),
     StatusMessage(playStreamId, "status", "NetStream.Play.Reset", "Playing and resetting stream."),
     StatusMessage(playStreamId, "status", "NetStream.Play.Start", "Started playing stream."),
     SampleAccessMessage(playStreamId)]
  }

  /** Reading the play replies back: Stream Begin for the play stream, then the reset
      and start statuses and the sample-access notice, all addressed to that stream. */
  lemma PlayRepliesLayout(playStreamId: nat)
    requires playStreamId < TWO32
    ensures var r := PlayReplies(playStreamId);
      && |r| == 4 && r[0].Raw?
      && ReadBe16(r[0].bytes[12..14]) == STREAM_BEGIN && ReadBe32(r[0].bytes[14..18]) == playStreamId
      && r[1].Invoke? && r[1].info.code == "NetStream.Play.Reset"
      && r[2].Invoke? && r[2].info.code == "NetStream.Play.Start"
      && r[3].Data? && r[3].cmd == "|RtmpSampleAccess"
      && r[1].streamId == r[2].streamId == r[3].streamId == playStreamId
  {
    StreamStatusLayout(STREAM_BEGIN, playStreamId);
  }

  // ---------------------------------------------------------------------------
  // The publish decision over the registry

  datatype PublishDecision = BadName | BadConnection | Accept

  /** The order of the tests in `onPublish` once authorisation has passed: a path that
      already has a publisher is refused, then a session that already publishes. */
  function DecidePublish(publishers: map<string, string>, path: string, isPublishing: bool): (d: PublishDecision)
    ensures d == BadName <==> path in publishers
    ensures d == BadConnection <==> path !in publishers && isPublishing
    ensures d == Accept <==> path !in publishers && !isPublishing
  {
    if path in publishers then BadName
    else if isPublishing then BadConnection
    else Accept
  }

  /** The registry after a publish attempt: `addPublish` runs only for an accepted one. */
  function AfterPublish(publishers: map<string, string>, path: string, id: string, isPublishing: bool): map<string, string> {
    if DecidePublish(publishers, path, isPublishing) == Accept then publishers[path := id] else publishers
  }

  /** The status `onPublish` sends for each decision. */
  function PublishStatus(d: PublishDecision, sid: nat, path: string): Outgoing {
    match d
    case BadName => StatusMessage(sid, "error", "NetStream.Publish.BadName", "Stream already publishing")
    case BadConnection => StatusMessage(sid, "error", "NetStream.Publish.BadConnection", "Connection already publishing")
    case Accept => StatusMessage(sid, "status", "NetStream.Publish.Start", path + " is now published.")
  }

  /** One publish attempt as the registry sees it: the session id, the path it asks for,
      and whether that session publishes already. */
  datatype PublishAttempt = PublishAttempt(id: string, path: string, isPublishing: bool)

  function PublishAll(publishers: map<string, string>, attempts: seq<PublishAttempt>): map<string, string>
    decreases |attempts|
  {
    if attempts == [] then publishers
    else
      var a := attempts[0];
      PublishAll(AfterPublish(publishers, a.path, a.id, a.isPublishing), attempts[1..])
  }

  /** A path has one publisher: whatever publish attempts follow, from any sessions, a
      registered path keeps the session that registered it, and no path is dropped. */
  lemma {:induction false} PublisherIsKept(publishers: map<string, string>, attempts: seq<PublishAttempt>, path: string)
    requires path in publishers
    ensures path in PublishAll(publishers, attempts)
    ensures PublishAll(publishers, attempts)[path] == publishers[path]
    decreases |attempts|
  {
    if attempts != [] {
      var a := attempts[0];
      var next := AfterPublish(publishers, a.path, a.id, a.isPublishing);
      assert path in next && next[path] == publishers[path];
      PublisherIsKept(next, attempts[1..], path);
    }
  }

  /** The registry only grows, and a path is registered by an attempt exactly when the
      attempt is accepted. */
  lemma AfterPublishGrows(publishers: map<string, string>, path: string, id: string, isPublishing: bool)
    ensures var r := AfterPublish(publishers, path, id, isPublishing);
      && publishers.Keys <= r.Keys
      && (path in r && r[path] == id && path !in publishers <==> !isPublishing && path !in publishers)
      && (forall q :: q in publishers ==> r[q] == publishers[q])
  {
  }

  // ---------------------------------------------------------------------------
  // The handlers

  // The fields the command handlers write. A handler's effect predicate states the new
  // value of the fields it writes and that the other ones keep their value.

  /** What onConnect leaves behind: the preConnect event; when the session is started,
      the command object with its trimmed app name, the encoding, the start time, the
      ping timer, the replies and the bitrate cache; otherwise none of these change.
      No other field of the command handlers changes. */
  twostate predicate Connected(s: Session, msg: InvokeMessage, time: nat, pingTimerId: nat)
    reads s
  {
    var obj := msg.cmdObj.(app := StripSlashes(msg.cmdObj.app));
    && s.events == old(s.events) + [PreConnect(s.id, obj)]
    && (old(s.isStarting) ==>
          && s.connectCmdObj == Some(obj) && s.appName == obj.app
          && s.objectEncoding == EncodingOf(obj)
          && s.startTimestamp == Some(time) && s.pingTimer == pingTimerId
          && s.output == old(s.output) + ConnectReplies(s.outChunkSize, msg.transId, EncodingOf(obj))
          && s.bitrateCache == Some(BitrateCache(1000, time, 0)))
    && (!old(s.isStarting) ==>
          unchanged(s`connectCmdObj, s`appName, s`objectEncoding, s`startTimestamp,
                    s`pingTimer, s`output, s`bitrateCache))
    && unchanged(s`streams, s`isStarting, s`videoFpsCountTimer, s`dataCountTimer,
                 s`publishStreamPath, s`publishArgs, s`publishStreamId, s`isPublishing,
                 s`playStreamPath, s`playArgs, s`playStreamId, s`isReceiveAudio, s`isReceiveVideo)
  }

  /** onConnect. `time` is `timestamp()`, `pingTimerId` the handle `Timer::add` returned.
      The preConnect listeners run outside this model: `isStarting` is read as it was. */
  method OnConnect(s: Session, msg: InvokeMessage, time: nat, pingTimerId: nat)
    modifies s`events, s`connectCmdObj, s`appName, s`objectEncoding, s`startTimestamp,
             s`pingTimer, s`output, s`bitrateCache
    ensures Connected(s, msg, time, pingTimerId)
  {
    var obj := msg.cmdObj.(app := StripSlashes(msg.cmdObj.app));
    s.events := s.events + [PreConnect(s.id, obj)];
    if !s.isStarting {
      return;
    }
    ConnectAccepted(s, obj, msg.transId, time, pingTimerId);
  }

  /** The accepting half of onConnect: the session takes the command object and answers
      with the window, bandwidth, chunk size and `_result` messages. */
  method ConnectAccepted(s: Session, obj: ConnectObject, transId: int, time: nat, pingTimerId: nat)
    modifies s`connectCmdObj, s`appName, s`objectEncoding, s`startTimestamp,
             s`pingTimer, s`output, s`bitrateCache
    ensures && s.connectCmdObj == Some(obj) && s.appName == obj.app
            && s.objectEncoding == EncodingOf(obj)
            && s.startTimestamp == Some(time) && s.pingTimer == pingTimerId
            && s.output == old(s.output) + ConnectReplies(s.outChunkSize, transId, EncodingOf(obj))
            && s.bitrateCache == Some(BitrateCache(1000, time, 0))
  {
    s.connectCmdObj := Some(obj);
    s.appName := obj.app;
    s.objectEncoding := EncodingOf(obj);
    s.startTimestamp := Some(time);
    s.pingTimer := pingTimerId;
    SendWindowAck(s, 5000000);
    SetPeerBandwidth(s, 5000000, 2);
    SetChunkSize(s, s.outChunkSize);
    s.output := s.output + [ConnectResult(transId, s.objectEncoding)];
    s.bitrateCache := Some(BitrateCache(1000, time, 0));
  }

  /** What respondCreateStream leaves behind: the stream counter up by one, a `_result`
      carrying the new count as the stream id, and no other field changed. */
  twostate predicate StreamCreated(s: Session, tid: int)
    reads s
  {
    && s.streams == old(s.streams) + 1
    && s.output == old(s.output) + [Invoke(0, "_result", tid, None, NumberInfo(s.streams))]
    && unchanged(s`events, s`connectCmdObj, s`appName, s`objectEncoding, s`startTimestamp, s`bitrateCache,
                 s`pingTimer, s`videoFpsCountTimer, s`dataCountTimer, s`isStarting,
                 s`publishStreamPath, s`publishArgs, s`publishStreamId, s`isPublishing,
                 s`playStreamPath, s`playArgs, s`playStreamId, s`isReceiveAudio, s`isReceiveVideo)
  }

  /** respondCreateStream */
  method RespondCreateStream(s: Session, tid: int)
    modifies s`streams, s`output
    ensures StreamCreated(s, tid)
  {
    s.streams := s.streams + 1;
    s.output := s.output + [Invoke(0, "_result", tid, None, NumberInfo(s.streams))];
  }

  /** Whether a call of `onPublish`/`onPlay` gets past the authorisation check: a re-entry
      after a resolved deferred check always does; a first call needs a string stream name
      and a definite hook result (falsy or truthy alike). */
  predicate PassesAuth(msg: InvokeMessage, isPromise: bool, auth: AuthResult) {
    isPromise || (msg.streamName.Some? && auth != Pending)
  }

  /** What onPublish leaves behind. A first call (`isPromise` false) without a stream
      name changes nothing; with one it records the path, the arguments and the stream id,
      which a re-entry keeps. A deferred check changes nothing more. Once the check is
      passed, `DecidePublish` on the registry and the publishing flag decides the registry,
      the flag, the status message, the events and, for a bad name, the teardown. The
      connection, play and receive fields never change. */
  twostate predicate Published(s: Session, reg: MediaRegistry, msg: InvokeMessage, packetStreamId: nat,
                               isPromise: bool, auth: AuthResult)
    reads s, reg
  {
    && unchanged(s`connectCmdObj, s`appName, s`objectEncoding, s`startTimestamp, s`bitrateCache, s`streams,
                 s`playStreamPath, s`playArgs, s`playStreamId, s`isReceiveAudio, s`isReceiveVideo, reg`players)
    && (!isPromise && msg.streamName.None? ==> unchanged(s) && unchanged(reg))
    && (!isPromise && msg.streamName.Some? ==>
          && s.publishStreamPath == StreamPath(s.appName, msg.streamName.value)
          && s.publishArgs == QueryPart(msg.streamName.value)
          && s.publishStreamId == packetStreamId)
    && (isPromise ==> unchanged(s`publishStreamPath, s`publishArgs, s`publishStreamId))
    && (!isPromise && msg.streamName.Some? && auth == Pending ==>
          unchanged(s`isPublishing, s`output, s`events, s`isStarting, s`pingTimer,
                    s`videoFpsCountTimer, s`dataCountTimer, reg`publishers))
    && (PassesAuth(msg, isPromise, auth) ==>
          var d := DecidePublish(old(reg.publishers), s.publishStreamPath, old(s.isPublishing));
          && reg.publishers == AfterPublish(old(reg.publishers), s.publishStreamPath, s.id, old(s.isPublishing))
          && s.isPublishing == (old(s.isPublishing) || d == Accept)
          && s.output == old(s.output) + [PublishStatus(d, s.publishStreamId, s.publishStreamPath)]
          && s.events == old(s.events) + (match d
                                          case BadName => [OnClose]
                                          case BadConnection => []
                                          case Accept => [OnPublishReady])
          && (d == BadName ==> !s.isStarting)
          && (d == BadName && old(s.isStarting) ==>
                s.pingTimer == 0 && s.videoFpsCountTimer == 0 && s.dataCountTimer == 0)
          && (d != BadName || !old(s.isStarting) ==>
                unchanged(s`pingTimer, s`videoFpsCountTimer, s`dataCountTimer))
          && (d != BadName ==> s.isStarting == old(s.isStarting)))
  }

  /** onPublish. `packetStreamId` is the stream id of the current packet, `auth` what
      `verifyAuth` returned (read only on a first call). Returns whether the decision was
      deferred to a re-entry with `isPromise` set. */
  method OnPublish(s: Session, reg: MediaRegistry, msg: InvokeMessage, packetStreamId: nat,
                   isPromise: bool, auth: AuthResult)
    returns (deferred: bool)
    modifies s`publishStreamPath, s`publishArgs, s`publishStreamId, s`isPublishing, s`output,
             s`events, s`isStarting, s`pingTimer, s`videoFpsCountTimer, s`dataCountTimer,
             reg`publishers
    ensures deferred <==> !isPromise && msg.streamName.Some? && auth == Pending
    ensures Published(s, reg, msg, packetStreamId, isPromise, auth)
  {
    deferred := !isPromise && msg.streamName.Some? && auth == Pending;
    if !isPromise && msg.streamName.Some? {
      PublishName(s, msg.streamName.value, packetStreamId);
    }
    if PassesAuth(msg, isPromise, auth) {
      PublishDecided(s, reg);
    }
  }

  /** The first half of onPublish on a first call: the stream path, the query text and
      the stream id of the name asked for. */
  method PublishName(s: Session, name: string, packetStreamId: nat)
    modifies s`publishStreamPath, s`publishArgs, s`publishStreamId
    ensures s.publishStreamPath == StreamPath(s.appName, name)
    ensures s.publishArgs == QueryPart(name)
    ensures s.publishStreamId == packetStreamId
    ensures unchanged(s`connectCmdObj, s`appName, s`objectEncoding, s`startTimestamp, s`bitrateCache, s`streams,
                      s`playStreamPath, s`playArgs, s`playStreamId, s`isReceiveAudio, s`isReceiveVideo)
  {
    s.publishStreamPath := StreamPath(s.appName, name);
    s.publishArgs := QueryPart(name);
    s.publishStreamId := packetStreamId;
  }

  /** The second half of onPublish, once the name and the authorisation are settled:
      the path is refused, already taken or held by this session, or it becomes ours. */
  method PublishDecided(s: Session, reg: MediaRegistry)
    modifies s`isPublishing, s`output, s`events, s`isStarting, s`pingTimer,
             s`videoFpsCountTimer, s`dataCountTimer, reg`publishers
    ensures var d := DecidePublish(old(reg.publishers), s.publishStreamPath, old(s.isPublishing));
              && reg.publishers == AfterPublish(old(reg.publishers), s.publishStreamPath, s.id, old(s.isPublishing))
              && s.isPublishing == (old(s.isPublishing) || d == Accept)
              && s.output == old(s.output) + [PublishStatus(d, s.publishStreamId, s.publishStreamPath)]
              && s.events == old(s.events) + (match d
                                              case BadName => [OnClose]
                                              case BadConnection => []
                                              case Accept => [OnPublishReady])
              && (d == BadName ==> !s.isStarting)
              && (d == BadName && old(s.isStarting) ==>
                    s.pingTimer == 0 && s.videoFpsCountTimer == 0 && s.dataCountTimer == 0)
              && (d != BadName || !old(s.isStarting) ==>
                    unchanged(s`pingTimer, s`videoFpsCountTimer, s`dataCountTimer))
              && (d != BadName ==> s.isStarting == old(s.isStarting))
    ensures unchanged(s`connectCmdObj, s`appName, s`objectEncoding, s`startTimestamp, s`bitrateCache, s`streams,
                      s`playStreamPath, s`playArgs, s`playStreamId, s`isReceiveAudio, s`isReceiveVideo, reg`players)
  {
    var d := DecidePublish(reg.publishers, s.publishStreamPath, s.isPublishing);
    if d == BadName {
      RejectPublish(s);
    } else if d == BadConnection {
      s.output := s.output + [PublishStatus(d, s.publishStreamId, s.publishStreamPath)];
    } else {
      reg.publishers := reg.publishers[s.publishStreamPath := s.id];
      s.isPublishing := true;
      s.output := s.output + [PublishStatus(d, s.publishStreamId, s.publishStreamPath)];
      s.events := s.events + [OnPublishReady];
    }
  }

  /** The BadName branch of onPublish: `reject()`, which is `stop()`, then the status
      message. Only the teardown fields, the events and the output change. */
  method RejectPublish(s: Session)
    modifies s`output, s`events, s`isStarting, s`pingTimer, s`videoFpsCountTimer, s`dataCountTimer
    ensures s.output == old(s.output) + [PublishStatus(BadName, s.publishStreamId, s.publishStreamPath)]
    ensures s.events == old(s.events) + [OnClose] && !s.isStarting
    ensures old(s.isStarting) ==> s.pingTimer == 0 && s.videoFpsCountTimer == 0 && s.dataCountTimer == 0
    ensures !old(s.isStarting) ==> unchanged(s`pingTimer, s`videoFpsCountTimer, s`dataCountTimer)
    ensures unchanged(s`connectCmdObj, s`appName, s`objectEncoding, s`startTimestamp, s`bitrateCache, s`streams,
                      s`playStreamPath, s`playArgs, s`playStreamId, s`isReceiveAudio, s`isReceiveVideo,
                      s`publishStreamPath, s`publishStreamId, s`isPublishing)
  {
    var _, _ := Stop(s);
    s.output := s.output + [PublishStatus(BadName, s.publishStreamId, s.publishStreamPath)];
  }

  /** The rejection callback of a deferred publish check. */
  method OnPublishAuthRejected(s: Session)
    modifies s`output
    ensures s.output == old(s.output)
                        + [StatusMessage(s.publishStreamId, "error", "NetStream.publish.Unauthorized", "Authorization required.")]
  {
    s.output := s.output + [StatusMessage(s.publishStreamId, "error", "NetStream.publish.Unauthorized", "Authorization required.")];
  }

  /** respondPlay */
  method RespondPlay(s: Session)
    modifies s`output
    ensures s.output == old(s.output) + PlayReplies(s.playStreamId)
  {
    s.output := s.output + [Raw(StreamStatusMessage(STREAM_BEGIN, s.playStreamId))];
    s.output := s.output + [StatusMessage(s.playStreamId, "status", "NetStream.Play.Reset", "Playing and resetting stream.")];
    s.output := s.output + [StatusMessage(s.playStreamId, "status", "NetStream.Play.Start", "Started playing stream.")];
    s.output := s.output + [SampleAccessMessage(s.playStreamId)];
  }

  /** What onPlay leaves behind, with the same protocol as onPublish: the name fields on
      a first call with a name, then, once the check is passed, the session among the
      path's players and the play replies, or the BadConnection status if it already
      plays. No field outside onPlay's changes. */
  twostate predicate Played(s: Session, reg: MediaRegistry, msg: InvokeMessage, packetStreamId: nat,
                            isPromise: bool, auth: AuthResult)
    reads s, reg
  {
    && unchanged(s`events, s`connectCmdObj, s`appName, s`objectEncoding, s`startTimestamp, s`bitrateCache,
                 s`pingTimer, s`videoFpsCountTimer, s`dataCountTimer, s`streams, s`isStarting,
                 s`publishStreamPath, s`publishArgs, s`publishStreamId, s`isPublishing,
                 s`isReceiveAudio, s`isReceiveVideo, reg`publishers)
    && (!isPromise && msg.streamName.None? ==> unchanged(s) && unchanged(reg))
    && (!isPromise && msg.streamName.Some? ==>
          && s.playStreamPath == StreamPath(s.appName, msg.streamName.value)
          && s.playArgs == QueryPart(msg.streamName.value)
          && s.playStreamId == packetStreamId)
    && (isPromise ==> unchanged(s`playStreamPath, s`playArgs, s`playStreamId))
    && (!isPromise && msg.streamName.Some? && auth == Pending ==> unchanged(s`output, reg`players))
    && (PassesAuth(msg, isPromise, auth) ==>
          && reg.players == AddPlayer(old(reg.players), s.playStreamPath, s.id)
          && s.output == old(s.output)
                         + (if s.isPlaying
                            then [StatusMessage(s.playStreamId, "error", "NetStream.Play.BadConnection",
                                                "Connection already playing")]
                            else PlayReplies(s.playStreamId)))
  }

  /** onPlay. The session joins the path's players whether or not it already plays. */
  method OnPlay(s: Session, reg: MediaRegistry, msg: InvokeMessage, packetStreamId: nat,
                isPromise: bool, auth: AuthResult)
    returns (deferred: bool)
    modifies s`playStreamPath, s`playArgs, s`playStreamId, s`output, reg`players
    ensures deferred <==> !isPromise && msg.streamName.Some? && auth == Pending
    ensures Played(s, reg, msg, packetStreamId, isPromise, auth)
  {
    deferred := !isPromise && msg.streamName.Some? && auth == Pending;
    if !isPromise && msg.streamName.Some? {
      PlayName(s, msg.streamName.value, packetStreamId);
    }
    if PassesAuth(msg, isPromise, auth) {
      PlayDecided(s, reg);
    }
  }

  /** The first half of onPlay on a first call: the stream path, the query text and the
      stream id of the name asked for. */
  method PlayName(s: Session, name: string, packetStreamId: nat)
    modifies s`playStreamPath, s`playArgs, s`playStreamId
    ensures s.playStreamPath == StreamPath(s.appName, name)
    ensures s.playArgs == QueryPart(name)
    ensures s.playStreamId == packetStreamId
    ensures unchanged(s`events, s`connectCmdObj, s`appName, s`objectEncoding, s`startTimestamp, s`bitrateCache,
                      s`pingTimer, s`videoFpsCountTimer, s`dataCountTimer, s`streams, s`isStarting, s`output,
                      s`publishStreamPath, s`publishArgs, s`publishStreamId, s`isPublishing,
                      s`isReceiveAudio, s`isReceiveVideo)
  {
    s.playStreamPath := StreamPath(s.appName, name);
    s.playArgs := QueryPart(name);
    s.playStreamId := packetStreamId;
  }

  /** The second half of onPlay, once the check is passed: the replies (or the
      BadConnection status when the session already plays), then the session joins the
      path's players. */
  method PlayDecided(s: Session, reg: MediaRegistry)
    modifies s`output, reg`players
    ensures reg.players == AddPlayer(old(reg.players), s.playStreamPath, s.id)
    ensures s.output == old(s.output)
                        + (if s.isPlaying
                           then [StatusMessage(s.playStreamId, "error", "NetStream.Play.BadConnection",
                                               "Connection already playing")]
                           else PlayReplies(s.playStreamId))
    ensures unchanged(s`events, s`connectCmdObj, s`appName, s`objectEncoding, s`startTimestamp, s`bitrateCache,
                      s`pingTimer, s`videoFpsCountTimer, s`dataCountTimer, s`streams, s`isStarting,
                      s`publishStreamPath, s`publishArgs, s`publishStreamId, s`isPublishing,
                      s`playStreamPath, s`playArgs, s`playStreamId, s`isReceiveAudio, s`isReceiveVideo,
                      reg`publishers)
  {
    if s.isPlaying {
      s.output := s.output + [StatusMessage(s.playStreamId, "error", "NetStream.Play.BadConnection", "Connection already playing")];
    } else {
      RespondPlay(s);
    }
    reg.players := AddPlayer(reg.players, s.playStreamPath, s.id);
  }

  /** The rejection callback of a deferred play check. */
  method OnPlayAuthRejected(s: Session)
    modifies s`output
    ensures s.output == old(s.output)
                        + [StatusMessage(s.playStreamId, "error", "NetStream.play.Unauthorized", "Authorization required.")]
  {
    s.output := s.output + [StatusMessage(s.playStreamId, "error", "NetStream.play.Unauthorized", "Authorization required.")];
  }

  /** What onReceiveAudio (`audio`) or onReceiveVideo leaves behind: that one flag set
      from the message, every other field as it was. */
  twostate predicate FlagSet(s: Session, audio: bool, flag: bool)
    reads s
  {
    && (if audio then s.isReceiveAudio == flag && unchanged(s`isReceiveVideo)
        else s.isReceiveVideo == flag && unchanged(s`isReceiveAudio))
    && unchanged(s`events, s`connectCmdObj, s`appName, s`objectEncoding, s`startTimestamp, s`bitrateCache,
                 s`pingTimer, s`videoFpsCountTimer, s`dataCountTimer, s`output, s`streams, s`isStarting,
                 s`publishStreamPath, s`publishArgs, s`publishStreamId, s`isPublishing,
                 s`playStreamPath, s`playArgs, s`playStreamId)
  }

  /** onReceiveAudio */
  method OnReceiveAudio(s: Session, msg: InvokeMessage)
    modifies s`isReceiveAudio
    ensures FlagSet(s, true, msg.flag)
  {
    s.isReceiveAudio := msg.flag;
  }

  /** onReceiveVideo */
  method OnReceiveVideo(s: Session, msg: InvokeMessage)
    modifies s`isReceiveVideo
    ensures FlagSet(s, false, msg.flag)
  {
    s.isReceiveVideo := msg.flag;
  }

  // ---------------------------------------------------------------------------
  // Dispatch

  datatype Command = Connect | CreateStream | Publish | Play | ReceiveAudio | ReceiveVideo | Ignored

  /** The switch of `rtmpInvokeHandler` on the command name. `releaseStream`, `FCPublish`,
      `FCUnpublish`, `pause`, `deleteStream` and `closeStream` have cases whose handlers
      change nothing, so they are `Ignored` like an unknown name. */
  function CommandFor(cmd: string): (c: Command)
    ensures c == Connect <==> cmd == "connect"
    ensures c == CreateStream <==> cmd == "createStream"
    ensures c == Publish <==> cmd == "publish"
    ensures c == Play <==> cmd == "play"
    ensures c == ReceiveAudio <==> cmd == "receiveAudio"
    ensures c == ReceiveVideo <==> cmd == "receiveVideo"
  {
    if cmd == "connect" then Connect
    else if cmd == "createStream" then CreateStream
    else if cmd == "publish" then Publish
    else if cmd == "play" then Play
    else if cmd == "receiveAudio" then ReceiveAudio
    else if cmd == "receiveVideo" then ReceiveVideo
    else Ignored
  }

  /** The commands with an empty case or an empty handler. */
  lemma NoOpCommands()
    ensures forall c :: c in ["releaseStream", "FCPublish", "FCUnpublish", "pause", "deleteStream", "closeStream"]
                        ==> CommandFor(c) == Ignored
  {
    forall c | c in ["releaseStream", "FCPublish", "FCUnpublish", "pause", "deleteStream", "closeStream"]
      ensures CommandFor(c) == Ignored
    {
      assert c != "connect" && c != "createStream" && c != "publish" && c != "play";
      assert c != "receiveAudio" && c != "receiveVideo";
    }
  }

  /** rtmpInvokeHandler for the current packet `msg` (decoded) on stream `packetStreamId`:
      each command has the effect of its handler on a first call (`isPromise` false),
      which also says that it leaves the other handlers' fields alone. */
  method RtmpInvokeHandler(s: Session, reg: MediaRegistry, msg: InvokeMessage, packetStreamId: nat,
                           time: nat, pingTimerId: nat, auth: AuthResult)
    returns (deferred: bool)
    modifies s`events, s`connectCmdObj, s`appName, s`objectEncoding, s`startTimestamp, s`bitrateCache,
             s`pingTimer, s`videoFpsCountTimer, s`dataCountTimer, s`output, s`streams, s`isStarting,
             s`publishStreamPath, s`publishArgs, s`publishStreamId, s`isPublishing,
             s`playStreamPath, s`playArgs, s`playStreamId, s`isReceiveAudio, s`isReceiveVideo,
             reg`publishers, reg`players
    ensures deferred <==> CommandFor(msg.cmd) in {Publish, Play} && msg.streamName.Some? && auth == Pending
    ensures CommandFor(msg.cmd) == Ignored ==> unchanged(s) && unchanged(reg)
    ensures CommandFor(msg.cmd) !in {Publish, Play} ==> unchanged(reg)
    ensures CommandFor(msg.cmd) == Connect ==> Connected(s, msg, time, pingTimerId)
    ensures CommandFor(msg.cmd) == CreateStream ==> StreamCreated(s, msg.transId)
    ensures CommandFor(msg.cmd) == Publish ==> Published(s, reg, msg, packetStreamId, false, auth)
    ensures CommandFor(msg.cmd) == Play ==> Played(s, reg, msg, packetStreamId, false, auth)
    ensures CommandFor(msg.cmd) == ReceiveAudio ==> FlagSet(s, true, msg.flag)
    ensures CommandFor(msg.cmd) == ReceiveVideo ==> FlagSet(s, false, msg.flag)
  {
    deferred := false;
    match CommandFor(msg.cmd)
    case Connect => OnConnect(s, msg, time, pingTimerId);
    case CreateStream => RespondCreateStream(s, msg.transId);
    case Publish => deferred := OnPublish(s, reg, msg, packetStreamId, false, auth);
    case Play => deferred := OnPlay(s, reg, msg, packetStreamId, false, auth);
    case ReceiveAudio => OnReceiveAudio(s, msg);
    case ReceiveVideo => OnReceiveVideo(s, msg);
    case Ignored =>
  }
}
