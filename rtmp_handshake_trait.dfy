/** `onHandShake`: the server's handshake state machine over the receive buffer.
    The switch on `handshakeState` falls through, so one call may pass several
    stages; each stage waits until the buffer holds the bytes it needs. The
    outcome of one call is the pure function `HandshakeRun` of the state and the
    unread bytes, which the method is proved to implement. */
module RtmpHandshakeTrait {
  import opened Bytes
  import opened RtmpTypes
  import opened RtmpConstants
  import opened RtmpHandshake
  import opened RtmpSession

  /** What one call does: the state it leaves, the bytes it consumes, the C1 block it
      read (and answered with S0S1S2), and whether it moved the chunk decoder to
      CHUNK_STATE_BEGIN. */
  datatype HandshakeOutcome = HandshakeOutcome(state: int, consumed: nat, c1: Option<seq<byte>>, chunkBegin: bool)

  /** No effect at all: the state, the read position and the output stay as they are. */
  function Idle(state: int): HandshakeOutcome {
    HandshakeOutcome(state, 0, None, false)
  }

  /** The bytes the stage `state` waits for: C0 (1 byte), C1 (1536), C2 (1536). */
  function StageSize(state: int): (n: nat)
    requires RTMP_HANDSHAKE_UNINIT <= state < RTMP_HANDSHAKE_C2
    ensures n == 1 || n == RTMP_SIG_SIZE
  {
    if state == RTMP_HANDSHAKE_UNINIT then 1 else RTMP_SIG_SIZE
  }

  /** One call of `onHandShake` in state `state` on the unread bytes `input`. */
  function HandshakeRun(state: int, input: seq<byte>): (r: HandshakeOutcome)
    requires RTMP_HANDSHAKE_UNINIT <= state <= RTMP_HANDSHAKE_C2
    ensures state <= r.state <= RTMP_HANDSHAKE_C2
    ensures r.consumed <= |input|
    ensures r.chunkBegin <==> r.state == RTMP_HANDSHAKE_C2 && state < RTMP_HANDSHAKE_C2
    ensures r.c1.Some? <==> state <= RTMP_HANDSHAKE_C0 && r.state >= RTMP_HANDSHAKE_C1
    ensures r.c1.Some? ==> |r.c1.value| == RTMP_SIG_SIZE
    decreases RTMP_HANDSHAKE_C2 - state
  {
    if state == RTMP_HANDSHAKE_UNINIT then
      if |input| >= 1 then
        var rest := HandshakeRun(RTMP_HANDSHAKE_C0, input[1..]);
        rest.(consumed := 1 + rest.consumed)
      else Idle(state)
    else if state == RTMP_HANDSHAKE_C0 then
      if |input| >= RTMP_SIG_SIZE then
        var rest := HandshakeRun(RTMP_HANDSHAKE_C1, input[RTMP_SIG_SIZE..]);
        rest.(consumed := RTMP_SIG_SIZE + rest.consumed, c1 := Some(input[..RTMP_SIG_SIZE]))
      else Idle(state)
    else if state == RTMP_HANDSHAKE_C1 then
      if |input| >= RTMP_SIG_SIZE then HandshakeOutcome(RTMP_HANDSHAKE_C2, RTMP_SIG_SIZE, None, true)
      else Idle(state)
    else Idle(state)
  }

  /** What a call writes: S0S1S2 answering the C1 block it read, if it read one.
      `time1`, `time2` and `random` stand for the two `timestamp()` readings and the
      `make_random_str(1528)` result. */
  function Reply(c1: Option<seq<byte>>, time1: nat, time2: nat, random: seq<byte>): (w: seq<Outgoing>)
    requires c1.Some? ==> |c1.value| == RTMP_SIG_SIZE
    ensures |w| == if c1.Some? then 1 else 0
  {
    if c1.Some? then [Raw(HandshakeGenerateS0S1S2(c1.value, time1, time2, random))] else []
  }

  /** onHandShake. */
  method OnHandShake(s: Session, time1: nat, time2: nat, random: seq<byte>)
    requires s.readPos <= |s.buffer|
    requires RTMP_HANDSHAKE_UNINIT <= s.handshakeState <= RTMP_HANDSHAKE_C2
    modifies s`handshakeState, s`readPos, s`chunkState, s`output
    ensures var r := HandshakeRun(old(s.handshakeState), s.buffer[old(s.readPos)..]);
      && s.handshakeState == r.state
      && s.readPos == old(s.readPos) + r.consumed
      && s.output == old(s.output) + Reply(r.c1, time1, time2, random)
      && s.chunkState == (if r.chunkBegin then CHUNK_STATE_BEGIN else old(s.chunkState))
  {
    ghost var p0, state0 := s.readPos, s.handshakeState;
    if s.handshakeState == RTMP_HANDSHAKE_UNINIT && s.Has(1) {
      s.readPos := s.readPos + 1;
      s.handshakeState := RTMP_HANDSHAKE_C0;
    }
    ghost var p1, state1 := s.readPos, s.handshakeState;
    ghost var c1read: Option<seq<byte>> := None;
    if s.handshakeState == RTMP_HANDSHAKE_C0 && s.Has(RTMP_SIG_SIZE) {
      var c1 := s.buffer[s.readPos..s.readPos + RTMP_SIG_SIZE];
      c1read := Some(c1);
      s.readPos := s.readPos + RTMP_SIG_SIZE;
      var s0s1s2 := HandshakeGenerateS0S1S2(c1, time1, time2, random);
      s.output := s.output + [Raw(s0s1s2)];
      s.handshakeState := RTMP_HANDSHAKE_C1;
    }
    ghost var p2, state2 := s.readPos, s.handshakeState;
    ghost var begun := false;
    if s.handshakeState == RTMP_HANDSHAKE_C1 && s.Has(RTMP_SIG_SIZE) {
      begun := true;
      s.readPos := s.readPos + RTMP_SIG_SIZE;
      s.handshakeState := RTMP_HANDSHAKE_C2;
      s.chunkState := CHUNK_STATE_BEGIN;
    }
    ComposeStages(s.buffer, state0, p0, state1, p1, state2, p2, s.handshakeState, s.readPos, c1read, begun);
  }

  /** `r` with `k` more bytes consumed. */
  function After(k: nat, r: HandshakeOutcome): HandshakeOutcome {
    r.(consumed := k + r.consumed)
  }

  /** The three stages of `onHandShake`, taken one after the other on the buffer `buf`
      (state and read position before each stage, a C1 block read, and whether C2 was
      read), add up to one `HandshakeRun`. */
  lemma ComposeStages(buf: seq<byte>, state0: int, p0: nat, state1: int, p1: nat, state2: int, p2: nat,
                      state3: int, p3: nat, c1read: Option<seq<byte>>, begun: bool)
    requires RTMP_HANDSHAKE_UNINIT <= state0 <= RTMP_HANDSHAKE_C2 && p0 <= |buf|
    requires if state0 == RTMP_HANDSHAKE_UNINIT && |buf| - p0 >= 1
             then state1 == RTMP_HANDSHAKE_C0 && p1 == p0 + 1 else state1 == state0 && p1 == p0
    requires if state1 == RTMP_HANDSHAKE_C0 && |buf| - p1 >= RTMP_SIG_SIZE
             then state2 == RTMP_HANDSHAKE_C1 && p2 == p1 + RTMP_SIG_SIZE && c1read == Some(buf[p1..p2])
             else state2 == state1 && p2 == p1 && c1read == None
    requires if state2 == RTMP_HANDSHAKE_C1 && |buf| - p2 >= RTMP_SIG_SIZE
             then state3 == RTMP_HANDSHAKE_C2 && p3 == p2 + RTMP_SIG_SIZE && begun
             else state3 == state2 && p3 == p2 && !begun
    ensures var r := HandshakeRun(state0, buf[p0..]);
      state3 == r.state && p3 == p0 + r.consumed && c1read == r.c1 && begun == r.chunkBegin
  {
    StageC0(state0, buf, p0);
    StageC1(state1, buf, p1);
    StageC2(state2, buf, p2);
  }

  /** The C0 stage of one call, read from the buffer at `pos`. */
  lemma StageC0(state: int, buf: seq<byte>, pos: nat)
    requires RTMP_HANDSHAKE_UNINIT <= state <= RTMP_HANDSHAKE_C2 && pos <= |buf|
    ensures var go := state == RTMP_HANDSHAKE_UNINIT && |buf| - pos >= 1;
      var pos' := if go then pos + 1 else pos;
      var state' := if go then RTMP_HANDSHAKE_C0 else state;
      HandshakeRun(state, buf[pos..]) == After(pos' - pos, HandshakeRun(state', buf[pos'..]))
      && (state == RTMP_HANDSHAKE_UNINIT && !go ==> HandshakeRun(state, buf[pos..]) == Idle(state))
  {
    if state == RTMP_HANDSHAKE_UNINIT && |buf| - pos >= 1 {
      assert buf[pos..][1..] == buf[pos + 1..];
    }
  }

  /** The C1 stage of one call: it reads C1, which S0S1S2 answers. */
  lemma StageC1(state: int, buf: seq<byte>, pos: nat)
    requires RTMP_HANDSHAKE_UNINIT <= state <= RTMP_HANDSHAKE_C2 && pos <= |buf|
    ensures var go := state == RTMP_HANDSHAKE_C0 && |buf| - pos >= RTMP_SIG_SIZE;
      var pos' := if go then pos + RTMP_SIG_SIZE else pos;
      var state' := if go then RTMP_HANDSHAKE_C1 else state;
      var r := HandshakeRun(state, buf[pos..]);
      state == RTMP_HANDSHAKE_UNINIT
      || (go && r == After(RTMP_SIG_SIZE, HandshakeRun(state', buf[pos'..])).(c1 := Some(buf[pos..pos'])))
      || (!go && r == HandshakeRun(state', buf[pos'..]))
  {
    if state == RTMP_HANDSHAKE_C0 && |buf| - pos >= RTMP_SIG_SIZE {
      assert buf[pos..][RTMP_SIG_SIZE..] == buf[pos + RTMP_SIG_SIZE..];
      assert buf[pos..][..RTMP_SIG_SIZE] == buf[pos..pos + RTMP_SIG_SIZE];
    }
  }

  /** The C2 stage of one call: reading C2 completes the handshake. */
  lemma StageC2(state: int, buf: seq<byte>, pos: nat)
    requires RTMP_HANDSHAKE_UNINIT <= state <= RTMP_HANDSHAKE_C2 && pos <= |buf|
    ensures var go := state == RTMP_HANDSHAKE_C1 && |buf| - pos >= RTMP_SIG_SIZE;
      state == RTMP_HANDSHAKE_UNINIT || (state == RTMP_HANDSHAKE_C0 && |buf| - pos >= RTMP_SIG_SIZE)
      || HandshakeRun(state, buf[pos..])
         == if go then HandshakeOutcome(RTMP_HANDSHAKE_C2, RTMP_SIG_SIZE, None, true) else Idle(state)
  {
  }

  // ------------------------------------------------------------------ properties

  /** A stage whose bytes have not all arrived changes nothing. */
  lemma HandshakeWaits(state: int, input: seq<byte>)
    requires RTMP_HANDSHAKE_UNINIT <= state < RTMP_HANDSHAKE_C2 && |input| < StageSize(state)
    ensures HandshakeRun(state, input) == Idle(state)
  {
  }

  /** C2 is terminal: a call in state C2 changes nothing. */
  lemma HandshakeC2Terminal(input: seq<byte>)
    ensures HandshakeRun(RTMP_HANDSHAKE_C2, input) == Idle(RTMP_HANDSHAKE_C2)
  {
  }

  /** UNINIT with at least one byte (but not enough to go on) consumes exactly C0. */
  lemma HandshakeReadsC0(input: seq<byte>)
    requires 1 <= |input| < 1 + RTMP_SIG_SIZE
    ensures HandshakeRun(RTMP_HANDSHAKE_UNINIT, input) == HandshakeOutcome(RTMP_HANDSHAKE_C0, 1, None, false)
  {
  }

  /** C0 with 1536 bytes (but not enough for C2) consumes exactly C1 and answers it. */
  lemma HandshakeReadsC1(input: seq<byte>)
    requires RTMP_SIG_SIZE <= |input| < 2 * RTMP_SIG_SIZE
    ensures HandshakeRun(RTMP_HANDSHAKE_C0, input)
            == HandshakeOutcome(RTMP_HANDSHAKE_C1, RTMP_SIG_SIZE, Some(input[..RTMP_SIG_SIZE]), false)
  {
  }

  /** C1 with 1536 bytes consumes exactly C2, completes the handshake and starts the
      chunk decoder. */
  lemma HandshakeReadsC2(input: seq<byte>)
    requires RTMP_SIG_SIZE <= |input|
    ensures HandshakeRun(RTMP_HANDSHAKE_C1, input) == HandshakeOutcome(RTMP_HANDSHAKE_C2, RTMP_SIG_SIZE, None, true)
  {
  }

  /** From UNINIT, the handshake completes in one call exactly when 3073 bytes are
      buffered; it then consumes exactly those 3073 bytes and writes S0S1S2 once,
      built from bytes 1 to 1536 (C1). */
  lemma HandshakeCompletes(input: seq<byte>, time1: nat, time2: nat, random: seq<byte>)
    ensures var r := HandshakeRun(RTMP_HANDSHAKE_UNINIT, input);
      (r.state == RTMP_HANDSHAKE_C2 <==> |input| >= 1 + 2 * RTMP_SIG_SIZE)
      && (r.state == RTMP_HANDSHAKE_C2 ==>
            r.consumed == 3073
            && Reply(r.c1, time1, time2, random)
               == [Raw(HandshakeGenerateS0S1S2(input[1..1 + RTMP_SIG_SIZE], time1, time2, random))])
  {
    if |input| >= 1 + 2 * RTMP_SIG_SIZE {
      HandshakeRunsThrough(input);
    } else {
      HandshakeStopsShort(input);
    }
  }

  /** With all of C0, C1 and C2 buffered, one call from UNINIT completes the handshake. */
  lemma HandshakeRunsThrough(input: seq<byte>)
    requires |input| >= 1 + 2 * RTMP_SIG_SIZE
    ensures HandshakeRun(RTMP_HANDSHAKE_UNINIT, input)
            == HandshakeOutcome(RTMP_HANDSHAKE_C2, 3073, Some(input[1..1 + RTMP_SIG_SIZE]), true)
  {
    var rest := input[1..];
    assert rest[..RTMP_SIG_SIZE] == input[1..1 + RTMP_SIG_SIZE];
    HandshakeReadsC2(rest[RTMP_SIG_SIZE..]);
  }

  /** With fewer bytes buffered, a call from UNINIT does not reach C2. */
  lemma HandshakeStopsShort(input: seq<byte>)
    requires |input| < 1 + 2 * RTMP_SIG_SIZE
    ensures HandshakeRun(RTMP_HANDSHAKE_UNINIT, input).state < RTMP_HANDSHAKE_C2
  {
    if |input| >= 1 {
      var rest := input[1..];
      if |rest| >= RTMP_SIG_SIZE {
        HandshakeWaits(RTMP_HANDSHAKE_C1, rest[RTMP_SIG_SIZE..]);
      }
    }
  }

  /** The combined effect of two consecutive calls, the second on the bytes the first
      left unread once `b` has arrived, equals one call on `a + b`; a C1 block is read
      (and answered) in at most one of the two. */
  predicate SplitAgrees(state: int, a: seq<byte>, b: seq<byte>)
    requires RTMP_HANDSHAKE_UNINIT <= state <= RTMP_HANDSHAKE_C2
  {
    var r1 := HandshakeRun(state, a);
    var r2 := HandshakeRun(r1.state, (a + b)[r1.consumed..]);
    (r1.c1.Some? ==> r2.c1.None?)
    && HandshakeRun(state, a + b)
       == HandshakeOutcome(r2.state, r1.consumed + r2.consumed,
                           if r1.c1.Some? then r1.c1 else r2.c1, r1.chunkBegin || r2.chunkBegin)
  }

  /** The handshake does not depend on how the bytes are split across calls: running
      on the bytes buffered so far, and later on everything still unread once more bytes
      have arrived, consumes together what one call on all of it would, and answers
      the same C1 block, in exactly one of the two calls. */
  lemma {:induction false} HandshakeIncremental(state: int, a: seq<byte>, b: seq<byte>)
    requires RTMP_HANDSHAKE_UNINIT <= state <= RTMP_HANDSHAKE_C2
    ensures SplitAgrees(state, a, b)
    decreases RTMP_HANDSHAKE_C2 - state
  {
    if state == RTMP_HANDSHAKE_UNINIT && |a| >= 1 {
      HandshakeIncremental(RTMP_HANDSHAKE_C0, a[1..], b);
      SplitAfterC0(a, b);
    } else if state == RTMP_HANDSHAKE_C0 && |a| >= RTMP_SIG_SIZE {
      HandshakeIncremental(RTMP_HANDSHAKE_C1, a[RTMP_SIG_SIZE..], b);
      SplitAfterC1(a, b);
    } else if state == RTMP_HANDSHAKE_C1 && |a| >= RTMP_SIG_SIZE {
      SplitInC1(a, b);
    } else {
      SplitWaiting(state, a, b);
    }
  }

  /** The step of HandshakeIncremental that reads C0 from `a`. */
  lemma SplitAfterC0(a: seq<byte>, b: seq<byte>)
    requires |a| >= 1 && SplitAgrees(RTMP_HANDSHAKE_C0, a[1..], b)
    ensures SplitAgrees(RTMP_HANDSHAKE_UNINIT, a, b)
  {
    var ab := a + b;
    assert ab[1..] == a[1..] + b;
    var q1 := HandshakeRun(RTMP_HANDSHAKE_C0, a[1..]);
    assert ab[1 + q1.consumed..] == (a[1..] + b)[q1.consumed..];
  }

  /** The step of HandshakeIncremental that reads C1 from `a`. */
  lemma SplitAfterC1(a: seq<byte>, b: seq<byte>)
    requires |a| >= RTMP_SIG_SIZE && SplitAgrees(RTMP_HANDSHAKE_C1, a[RTMP_SIG_SIZE..], b)
    ensures SplitAgrees(RTMP_HANDSHAKE_C0, a, b)
  {
    var ab := a + b;
    assert ab[RTMP_SIG_SIZE..] == a[RTMP_SIG_SIZE..] + b;
    assert ab[..RTMP_SIG_SIZE] == a[..RTMP_SIG_SIZE];
    var q1 := HandshakeRun(RTMP_HANDSHAKE_C1, a[RTMP_SIG_SIZE..]);
    assert ab[RTMP_SIG_SIZE + q1.consumed..] == (a[RTMP_SIG_SIZE..] + b)[q1.consumed..];
  }

  /** C2 already in `a`: the first call completes and the second finds C2. */
  lemma SplitInC1(a: seq<byte>, b: seq<byte>)
    requires |a| >= RTMP_SIG_SIZE
    ensures SplitAgrees(RTMP_HANDSHAKE_C1, a, b)
  {
  }

  /** The first call waits: the second call sees all of `a + b`. */
  lemma SplitWaiting(state: int, a: seq<byte>, b: seq<byte>)
    requires RTMP_HANDSHAKE_UNINIT <= state <= RTMP_HANDSHAKE_C2
    requires state == RTMP_HANDSHAKE_UNINIT ==> |a| < 1
    requires state == RTMP_HANDSHAKE_C0 || state == RTMP_HANDSHAKE_C1 ==> |a| < RTMP_SIG_SIZE
    ensures SplitAgrees(state, a, b)
  {
    assert HandshakeRun(state, a) == Idle(state);
    assert (a + b)[0..] == a + b;
  }
}
