/** MediaReader.AVCPacket: the AVCVIDEOPACKET header of the FLV file format
    specification v10, Annex E (E.4.3.1): one byte AVCPacketType and a 24-bit
    CompositionTime, and the sequence parameter set that follows a sequence header,
    parsed on first request and kept. The parser of the parameter set is a parameter. */
module MediaReader {
  import opened Bytes
  import opened RtmpTypes

  const AVC_PACKET_TYPE_SEQUENCE_HEADER: nat := 0
  const AVC_PACKET_TYPE_NALU: nat := 1
  const AVC_PACKET_TYPE_END_SEQUENCE: nat := 2

  /** The two header fields. */
  datatype AvcHeader = AvcHeader(avcPacketType: nat, compositionTime: nat)

  /** `readTinyInt()` then `readInt24()`: one unsigned byte, then three bytes big-endian. */
  function ParseAvcHeader(s: seq<byte>): (h: AvcHeader)
    requires |s| >= 4
    ensures h.avcPacketType == s[0] as nat && h.avcPacketType < 256
    ensures h.compositionTime < TWO24
  {
    AvcHeader(s[0] as nat, ReadBe24(s[1..4]))
  }

  /** The header as a writer lays it out. */
  function AvcHeaderBytes(h: AvcHeader): (r: seq<byte>)
    ensures |r| == 4
  {
    [(h.avcPacketType % 256) as byte] + Be24(h.compositionTime)
  }

  /** Parsing what was written gives the header back, up to the field widths, whatever
      follows it. */
  lemma AvcHeaderRoundTrip(h: AvcHeader, rest: seq<byte>)
    ensures ParseAvcHeader(AvcHeaderBytes(h) + rest) == AvcHeader(h.avcPacketType % 256, h.compositionTime % TWO24)
  {
    var s := AvcHeaderBytes(h) + rest;
    assert s[1..4] == Be24(h.compositionTime);
    Be24RoundTrip(h.compositionTime);
  }

  /** Every four bytes are the layout of the header they parse to. */
  lemma AvcHeaderEncodes(s: seq<byte>)
    requires |s| == 4
    ensures AvcHeaderBytes(ParseAvcHeader(s)) == s
  {
    ReadBe24Encodes(s[1..4]);
    assert s == [s[0]] + s[1..4];
  }

  /** An AVC packet over a byte stream positioned at its first header byte. */
  class AvcPacket {
    const stream: seq<byte>
    var pos: nat
    var avcPacketType: nat
    var compositionTime: nat
    var avcSequenceParameterSet: Option<SpsInfo>

    /** The constructor reads the four header bytes and leaves the stream after them. */
    constructor(bytes: seq<byte>, start: nat)
      requires start + 4 <= |bytes|
      ensures stream == bytes && pos == start + 4
      ensures AvcHeader(avcPacketType, compositionTime) == ParseAvcHeader(bytes[start..])
      ensures avcSequenceParameterSet == None
    {
      stream := bytes;
      avcPacketType := bytes[start] as nat;
      compositionTime := ReadBe24(bytes[start + 1..start + 4]);
      pos := start + 4;
      avcSequenceParameterSet := None;
      assert bytes[start..][1..4] == bytes[start + 1..start + 4];
    }

    /** getAVCSequenceParameterSet. The first call parses all remaining bytes (`readRaw()`)
        and keeps the result; later calls return it and read nothing. */
    method GetAVCSequenceParameterSet(parseSps: seq<byte> -> SpsInfo) returns (sps: SpsInfo)
      requires pos <= |stream|
      modifies this`pos, this`avcSequenceParameterSet
      ensures avcSequenceParameterSet == Some(sps)
      ensures old(avcSequenceParameterSet).Some? ==> sps == old(avcSequenceParameterSet).value && pos == old(pos)
      ensures old(avcSequenceParameterSet).None? ==> sps == parseSps(stream[old(pos)..]) && pos == |stream|
    {
      if avcSequenceParameterSet.None? {
        var raw := stream[pos..];
        pos := |stream|;
        avcSequenceParameterSet := Some(parseSps(raw));
      }
      sps := avcSequenceParameterSet.value;
    }
  }
}
