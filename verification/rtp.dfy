// The video link: downlink.c cuts NAL units into RTP packets (FU-A fragments for the long
// ones, after RFC 3984 section 5.8) and receiver.c puts them together again.  The header is
// the program's own 8-byte one, without the SSRC of RFC 3550 section 5.1.
module Rtp {
  type byte = x: int | 0 <= x < 256

  const RTP_HEADER_SIZE: nat := 8
  const MAX_PAYLOAD_SIZE: nat := 1464
  const MAX_FRAG_PAYLOAD: nat := MAX_PAYLOAD_SIZE - 2
  const UDP_BUF_SIZE: nat := 25344
  const UINT16: nat := 0x1_0000
  const START_CODE: seq<byte> := [0, 0, 0, 1]

  datatype Header = Header(version: nat, padding: nat, extension: nat, cc: nat, marker: nat,
                           payloadType: nat, seqNo: nat, timestamp: nat)

  // pack_rtp_header: version 2, payload type 96, big-endian sequence number and timestamp.
  function PackRtpHeader(seqNo: nat, timestamp: nat, marker: nat): (buf: seq<byte>)
    requires seqNo < UINT16 && timestamp < 0x1_0000_0000 && marker <= 1
    ensures |buf| == RTP_HEADER_SIZE
  {
    [2 * 64, marker * 128 + 96, seqNo / 256, seqNo % 256,
     timestamp / 0x100_0000, timestamp / 0x1_0000 % 256, timestamp / 0x100 % 256, timestamp % 256]
  }

  function BigEndian(bytes: seq<byte>): nat {
    if bytes == [] then 0 else BigEndian(bytes[..|bytes| - 1]) * 256 + bytes[|bytes| - 1]
  }

  lemma BigEndian2(a: byte, b: byte)
    ensures BigEndian([a, b]) == 256 * a + b
  {
    assert [a, b][..1] == [a] && [a][..0] == [];
    assert BigEndian([a]) == a;
  }

  lemma BigEndian4(a: byte, b: byte, c: byte, d: byte)
    ensures BigEndian([a, b, c, d]) == 0x100_0000 * a + 0x1_0000 * b + 0x100 * c + d
  {
    assert [a, b, c, d][..3] == [a, b, c] && [a, b, c][..2] == [a, b];
    BigEndian2(a, b);
  }

  // The fields unpack_rtp_header reads from the first eight bytes.
  function HeaderOf(buf: seq<byte>): Header
    requires RTP_HEADER_SIZE <= |buf|
  {
    Header(buf[0] / 64, buf[0] / 32 % 2, buf[0] / 16 % 2, buf[0] % 16, buf[1] / 128, buf[1] % 128,
           BigEndian(buf[2..4]), BigEndian(buf[4..8]))
  }

  // What unpack_rtp_header returns: the payload offset past the CSRC list and the
  // extension, or -1 when they do not fit in the datagram.
  function PayloadOffset(buf: seq<byte>): (off: int)
    ensures off == -1 || RTP_HEADER_SIZE <= off <= |buf|
  {
    if |buf| < RTP_HEADER_SIZE then -1 else
      var off := 8 + HeaderOf(buf).cc * 4;
      if HeaderOf(buf).extension == 0 then (if off <= |buf| then off else -1)
      else if off + 4 > |buf| then -1
      else
        var ext := off + 4 + BigEndian(buf[off + 2..off + 4]) * 4;
        if ext <= |buf| then ext else -1
  }

  lemma TimestampBytes(t: nat)
    requires t < 0x1_0000_0000
    ensures 0x100_0000 * (t / 0x100_0000) + 0x1_0000 * (t / 0x1_0000 % 256) + 0x100 * (t / 0x100 % 256) + t % 256 == t
  {
    var q := t / 0x100;
    var r := t / 0x1_0000;
    assert q / 0x100 == r && r / 0x100 == t / 0x100_0000;
    assert t == 0x100 * q + t % 0x100 && q == 0x100 * r + q % 0x100 && r == 0x100 * (r / 0x100) + r % 0x100;
  }

  // unpack_rtp_header reads back exactly what pack_rtp_header wrote.
  lemma HeaderRoundTrip(seqNo: nat, timestamp: nat, marker: nat, payload: seq<byte>)
    requires seqNo < UINT16 && timestamp < 0x1_0000_0000 && marker <= 1
    ensures var packet := PackRtpHeader(seqNo, timestamp, marker) + payload;
            && HeaderOf(packet) == Header(2, 0, 0, 0, marker, 96, seqNo, timestamp)
            && PayloadOffset(packet) == RTP_HEADER_SIZE
            && packet[RTP_HEADER_SIZE..] == payload
  {
    hide BigEndian;
    var h := PackRtpHeader(seqNo, timestamp, marker);
    var packet := h + payload;
    assert packet[2..4] == [h[2], h[3]] && packet[4..8] == [h[4], h[5], h[6], h[7]];
    BigEndian2(h[2], h[3]);
    BigEndian4(h[4], h[5], h[6], h[7]);
    TimestampBytes(timestamp);
    assert packet[0] == 128 && packet[1] == marker * 128 + 96;
  }

  // The two bytes in front of an FU-A fragment: F and NRI of the NAL with type 28, then the
  // S and E bits with the type of the NAL.
  function FuIndicator(nalHeader: byte): byte {
    nalHeader / 32 * 32 + 28
  }

  function FuHeader(nalHeader: byte, first: bool, last: bool): byte {
    nalHeader % 32 + (if first then 128 else 0) + (if last then 64 else 0)
  }

  predicate SBit(fuHeader: byte) {
    fuHeader / 128 == 1
  }

  predicate EBit(fuHeader: byte) {
    fuHeader / 64 % 2 == 1
  }

  // The NAL header byte the receiver restores.
  function OriginalNalHeader(fuIndicator: byte, fuHeader: byte): byte {
    fuIndicator / 32 * 32 + fuHeader % 32
  }

  predicate IsAnnexB(nal: seq<byte>) {
    |nal| >= 4 && nal[..4] == START_CODE
  }

  function NalType(nal: seq<byte>): nat
    requires |nal| > 0
  {
    nal[0] % 32
  }
}
