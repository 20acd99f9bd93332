/**
 RTP packets (section 5.1 of RFC 3550): the header the streamer writes and the parser the
 client applies to a datagram.
 */
module Rtp {
  import opened Bytes

  type Packet = seq<byte>

  const HEADER_SIZE: nat := 12
  const MAX_PACKET_SIZE: nat := 1400
  const VIDEO_PAYLOAD_TYPE: nat := 96
  const VIDEO_CLOCK_RATE: nat := 90000

  /** Version 2, no padding, no extension, no contributing sources. */
  function Header(payloadType: nat, marker: bool, seqNo: int, ts: int, ssrc: int): (h: Packet)
    requires 0 <= seqNo < TWO16 && 0 <= ts < TWO32 && 0 <= ssrc < TWO32
    ensures |h| == HEADER_SIZE
  {
    [0x80, (if marker then 0x80 else 0) + payloadType % 128] + BE16(seqNo) + BE32(ts) + BE32(ssrc)
  }

  function SeqOf(p: Packet): (s: int)
    requires |p| >= 4
    ensures 0 <= s < TWO16
  {
    Read16(p, 2)
  }

  datatype Datagram = Datagram(marker: bool, payloadType: int, seqNo: int, ts: int, ssrc: int, payload: seq<byte>)

  /** The client's parser: contributing sources and a header extension are skipped over. */
  function Parse(d: seq<byte>): Option<Datagram> {
    if |d| < 12 || d[0] / 64 != 2 then None
    else
      var fixed := 12 + 4 * (d[0] % 16);
      var off := if d[0] / 16 % 2 == 1 && fixed + 4 <= |d|
                 then fixed + 4 + 4 * Read16(d, fixed + 2)
                 else fixed;
      if |d| <= off then None
      else Some(Datagram(d[1] >= 128, d[1] % 128, Read16(d, 2), Read32(d, 4), Read32(d, 8), d[off..]))
  }

  lemma ReadsBack16(n: int, d: seq<byte>, at: nat)
    requires 0 <= n < TWO16 && at + 2 <= |d| && d[at..at + 2] == BE16(n)
    ensures Read16(d, at) == n
  {
    assert d[at] == d[at..at + 2][0] && d[at + 1] == d[at..at + 2][1];
  }

  lemma ReadsBack32(n: int, d: seq<byte>, at: nat)
    requires 0 <= n < TWO32 && at + 4 <= |d| && d[at..at + 4] == BE32(n)
    ensures Read32(d, at) == n
  {
    assert d[at..at + 2] == d[at..at + 4][..2] == BE16(n / TWO16);
    assert d[at + 2..at + 4] == d[at..at + 4][2..] == BE16(n % TWO16);
    ReadsBack16(n / TWO16, d, at);
    ReadsBack16(n % TWO16, d, at + 2);
  }

  /** The client reads back every field the streamer wrote, and exactly its payload. */
  lemma ParseInvertsHeader(payloadType: nat, marker: bool, seqNo: int, ts: int, ssrc: int, payload: seq<byte>)
    requires payloadType < 128 && payload != []
    requires 0 <= seqNo < TWO16 && 0 <= ts < TWO32 && 0 <= ssrc < TWO32
    ensures var p := Header(payloadType, marker, seqNo, ts, ssrc) + payload;
      && SeqOf(p) == seqNo
      && Parse(p) == Some(Datagram(marker, payloadType, seqNo, ts, ssrc, payload))
  {
    var h := Header(payloadType, marker, seqNo, ts, ssrc);
    var p := h + payload;
    assert h[2..4] == BE16(seqNo) && h[4..8] == BE32(ts) && h[8..12] == BE32(ssrc);
    assert p[2..4] == h[2..4] && p[4..8] == h[4..8] && p[8..12] == h[8..12];
    ReadsBack16(seqNo, p, 2);
    ReadsBack32(ts, p, 4);
    ReadsBack32(ssrc, p, 8);
    assert p[0] == 0x80 && p[1] == h[1];
    assert p[12..] == payload;
  }
}
