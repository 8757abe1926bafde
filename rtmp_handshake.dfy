/** The server side of the plain (non-digest) RTMP handshake of the Adobe RTMP
    specification, section 5.2: the handshake states and the S0/S1/S2 byte
    builders. The clock readings and the random block are parameters. */
module RtmpHandshake {
  import opened Bytes

  const RTMP_HANDSHAKE_UNINIT: int := 0
  const RTMP_HANDSHAKE_C0: int := 1
  const RTMP_HANDSHAKE_C1: int := 2
  const RTMP_HANDSHAKE_C2: int := 3

  /** Size of C1, C2, S1 and S2. */
  const RTMP_SIG_SIZE: nat := 1536
  /** Size of the random block of C1/S1. */
  const RTMP_RANDOM_SIZE: nat := 1528
  /** The protocol version sent as S0. */
  const RTMP_VERSION: byte := 3

  /** S1: the server clock, four zero bytes, then the random block ('NNa1528').
      `time` is the first reading of `timestamp()`, `random` what
      `make_random_str(1528)` returned. */
  function HandshakeGenerateS1(time: nat, random: seq<byte>): (s1: seq<byte>)
    ensures |s1| == RTMP_SIG_SIZE
  {
    Be32(time) + Be32(0) + PadA(random, RTMP_RANDOM_SIZE)
  }

  /** S2: C1's timestamp, the server clock, then C1's random block
      (`unpack('Ntimestamp/Nzero/a1528random', $c1)` re-packed with 'NNa1528'). */
  function HandshakeGenerateS2(c1: seq<byte>, time: nat): (s2: seq<byte>)
    requires |c1| == RTMP_SIG_SIZE
    ensures |s2| == RTMP_SIG_SIZE
  {
    Be32(ReadBe32(c1[..4])) + Be32(time) + PadA(c1[8..], RTMP_RANDOM_SIZE)
  }

  /** S0 S1 S2 as one string ('Ca1536a1536'); S1 and S2 each read the clock. */
  function HandshakeGenerateS0S1S2(c1: seq<byte>, time1: nat, time2: nat, random: seq<byte>): (r: seq<byte>)
    requires |c1| == RTMP_SIG_SIZE
    ensures |r| == 1 + RTMP_SIG_SIZE + RTMP_SIG_SIZE == 3073
    ensures r[0] == RTMP_VERSION
  {
    [RTMP_VERSION]
      + PadA(HandshakeGenerateS1(time1, random), RTMP_SIG_SIZE)
      + PadA(HandshakeGenerateS2(c1, time2), RTMP_SIG_SIZE)
  }

  /** The states are numbered in the order the handshake visits them. */
  lemma HandshakeStatesIncrease()
    ensures RTMP_HANDSHAKE_UNINIT < RTMP_HANDSHAKE_C0 < RTMP_HANDSHAKE_C1 < RTMP_HANDSHAKE_C2
  {
  }

  /** Reading S1 back: bytes 0-3 carry the server clock (modulo 2^32), bytes 4-7 are
      zero, and bytes 8-1535 are the random block when it has 1528 bytes. */
  lemma S1Layout(time: nat, random: seq<byte>)
    ensures var s1 := HandshakeGenerateS1(time, random);
      ReadBe32(s1[..4]) == time % TWO32
      && s1[4..8] == [0, 0, 0, 0]
      && (|random| == RTMP_RANDOM_SIZE ==> s1[8..] == random)
  {
    var s1 := HandshakeGenerateS1(time, random);
    assert s1[..4] == Be32(time);
    Be32RoundTrip(time);
    assert s1[8..] == PadA(random, RTMP_RANDOM_SIZE);
  }

  /** S2 echoes C1's timestamp (bytes 0-3) and C1's random block (bytes 8-1535), and
      carries the server clock in bytes 4-7. */
  lemma S2Echoes(c1: seq<byte>, time: nat)
    requires |c1| == RTMP_SIG_SIZE
    ensures var s2 := HandshakeGenerateS2(c1, time);
      s2[..4] == c1[..4] && s2[8..] == c1[8..] && s2[4..8] == Be32(time)
      && ReadBe32(s2[4..8]) == time % TWO32
  {
    var s2 := HandshakeGenerateS2(c1, time);
    ReadBe32Encodes(c1[..4]);
    assert s2[..4] == Be32(ReadBe32(c1[..4]));
    assert s2[4..8] == Be32(time);
    assert s2[8..] == PadA(c1[8..], RTMP_RANDOM_SIZE);
    Be32RoundTrip(time);
  }

  /** C1's bytes 4-7 (its "zero" field) do not influence S2. */
  lemma S2IgnoresC1Zero(c1: seq<byte>, c1': seq<byte>, time: nat)
    requires |c1| == |c1'| == RTMP_SIG_SIZE
    requires c1[..4] == c1'[..4] && c1[8..] == c1'[8..]
    ensures HandshakeGenerateS2(c1, time) == HandshakeGenerateS2(c1', time)
  {
  }

  /** Where S1 and S2 sit inside S0S1S2, and what S2 echoes from C1 read at those offsets. */
  lemma S0S1S2Layout(c1: seq<byte>, time1: nat, time2: nat, random: seq<byte>)
    requires |c1| == RTMP_SIG_SIZE
    ensures var r := HandshakeGenerateS0S1S2(c1, time1, time2, random);
      r[1..1537] == HandshakeGenerateS1(time1, random)
      && r[1537..] == HandshakeGenerateS2(c1, time2)
      && r[1537..1541] == c1[..4]
      && r[1545..] == c1[8..]
  {
    var r := HandshakeGenerateS0S1S2(c1, time1, time2, random);
    var s1 := HandshakeGenerateS1(time1, random);
    var s2 := HandshakeGenerateS2(c1, time2);
    assert r == [RTMP_VERSION] + s1 + s2;
    assert r[1..1537] == s1;
    assert r[1537..] == s2;
    S2Echoes(c1, time2);
    assert r[1537..1541] == s2[..4];
    assert r[1545..] == s2[8..];
  }
}
