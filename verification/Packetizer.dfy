/**
 The streamer's video packetizers (src/streamer/rtp_packetizer.cpp). The H.265 and the H.264
 classes differ in the constants collected in Codec and in nothing else.
 */
module Packetizer {
  import opened Bytes
  import opened AnnexB
  import opened Rtp

  /** Sections 4.4.1 and 4.4.3 of RFC 7798; sections 5.6 and 5.8 of RFC 6184. */
  lemma Spliced265(first: byte, t: int)
    requires 0 <= t < 64
    ensures var w := first / 128 * 128 + t * 2 + first % 2;
      0 <= w < 256 && w / 2 % 64 == t && (t == first / 2 % 64 ==> w == first)
  {
    var w := first / 128 * 128 + t * 2 + first % 2;
    assert w / 2 == first / 128 * 64 + t && first / 2 / 64 == first / 128;
  }

  lemma Spliced264(first: byte, t: int)
    requires 0 <= t < 32
    ensures var w := first / 32 * 32 + t;
      0 <= w < 256 && w % 32 == t && (t == first % 32 ==> w == first)
  {
  }

  datatype Codec = H265 | H264 {
    function HeaderSize(): nat { if H265? then 2 else 1 }

    function TypeOf(first: byte): int { if H265? then first / 2 % 64 else first % 32 }

    function AggregateType(): int { if H265? then 48 else 24 }

    function FragmentType(): int { if H265? then 49 else 28 }

    predicate IsSingle(t: int) { if H265? then t < 48 else 1 <= t <= 23 }

    predicate IsIdr(t: int) { if H265? then t == 19 || t == 20 else t == 5 }

    function TypeRange(): int { if H265? then 64 else 32 }

    /** The first byte of a NAL unit with its type replaced. */
    function WithType(first: byte, t: int): (b: byte)
      requires 0 <= t < TypeRange()
      ensures TypeOf(b) == t
      ensures t == TypeOf(first) ==> b == first
    {
      if H265? then Spliced265(first, t); first / 128 * 128 + t * 2 + first % 2
      else Spliced264(first, t); first / 32 * 32 + t
    }
  }

  const SINGLE_MAX: nat := MAX_PACKET_SIZE - HEADER_SIZE

  function Budget(c: Codec): nat {
    MAX_PACKET_SIZE - HEADER_SIZE - c.HeaderSize() - 1
  }

  function FragmentHeader(start: bool, end: bool, t: int): (b: byte)
    requires 0 <= t < 64
    ensures b / 128 == 1 <==> start
    ensures b / 64 % 2 == 1 <==> end
    ensures b % 64 == t && (t < 32 ==> b % 32 == t)
  {
    (if start then 128 else 0) + (if end then 64 else 0) + t
  }

  /** The payload that carries nal[off..end]. */
  function Fragment(c: Codec, nal: Nal, off: nat, end: nat): seq<byte>
    requires c.HeaderSize() <= off <= end <= |nal|
  {
    [c.WithType(nal[0], c.FragmentType())] + nal[1..c.HeaderSize()] +
    [FragmentHeader(off == c.HeaderSize(), end == |nal|, c.TypeOf(nal[0]))] + nal[off..end]
  }

  function FragmentEnd(c: Codec, nal: Nal, off: nat): nat {
    Min(off + Budget(c), |nal|)
  }

  function Fragments(c: Codec, nal: Nal, off: nat): (ps: seq<seq<byte>>)
    requires c.HeaderSize() <= off <= |nal|
    ensures off < |nal| ==> ps != []
    decreases |nal| - off
  {
    if off == |nal| then []
    else [Fragment(c, nal, off, FragmentEnd(c, nal, off))] + Fragments(c, nal, FragmentEnd(c, nal, off))
  }

  /** The payloads of one unit: itself if it fits in a packet, its fragments otherwise. */
  function UnitPayloads(c: Codec, nal: Nal): (ps: seq<seq<byte>>)
    ensures ps != []
  {
    if |nal| <= SINGLE_MAX then [nal] else Fragments(c, nal, c.HeaderSize())
  }

  function Payloads(c: Codec, nals: seq<Nal>): (ps: seq<seq<byte>>)
    ensures nals != [] ==> ps != []
  {
    if nals == [] then [] else UnitPayloads(c, nals[0]) + Payloads(c, nals[1..])
  }

  /** Consecutive sequence numbers from seqNo on, one timestamp, the marker on the last packet. */
  function Stamped(payloads: seq<seq<byte>>, seqNo: int, ts: int, ssrc: int): (ps: seq<Packet>)
    requires 0 <= seqNo < TWO16 && 0 <= ts < TWO32 && 0 <= ssrc < TWO32
    ensures |ps| == |payloads|
  {
    if payloads == [] then []
    else
      [Header(VIDEO_PAYLOAD_TYPE, |payloads| == 1, seqNo, ts, ssrc) + payloads[0]] +
      Stamped(payloads[1..], (seqNo + 1) % TWO16, ts, ssrc)
  }

  /** 64-bit product of the capture time and the clock rate, in 32 bits of clock ticks. */
  function Stamp(ptsUsec: int): (ts: int)
    ensures 0 <= ts < TWO32
  {
    ptsUsec % TWO64 * VIDEO_CLOCK_RATE % TWO64 / 1_000_000 % TWO32
  }

  /** The packets of one access unit. */
  ghost function UnitPackets(c: Codec, data: seq<byte>, ptsUsec: int, seqNo: int, ssrc: int): seq<Packet>
    requires 0 <= seqNo < TWO16 && 0 <= ssrc < TWO32
  {
    Stamped(Payloads(c, Nals(data)), seqNo, Stamp(ptsUsec), ssrc)
  }

  class VideoPacketizer {
    const codec: Codec
    const ssrc: int
    var seqNo: int

    ghost predicate Valid()
      reads this
    {
      0 <= ssrc < TWO32 && 0 <= seqNo < TWO16
    }

    constructor (codec: Codec, ssrc: int)
      requires 0 <= ssrc < TWO32
      ensures Valid() && this.codec == codec && this.ssrc == ssrc && seqNo == 0
    {
      this.codec := codec;
      this.ssrc := ssrc;
      seqNo := 0;
    }

    /** fetch_add on a 16-bit counter. */
    method NextSeq() returns (s: int)
      requires Valid()
      modifies this
      ensures Valid() && s == old(seqNo) && seqNo == (old(seqNo) + 1) % TWO16
    {
      s := seqNo;
      seqNo := (seqNo + 1) % TWO16;
    }

    /** A unit that fits in one packet is its whole payload. */
    method PacketizeSingle(nal: Nal, isLastNal: bool, ts: int, out: seq<Packet>, ghost rest: seq<seq<byte>>)
      returns (out': seq<Packet>)
      requires Valid() && 0 <= ts < TWO32
      requires isLastNal <==> rest == []
      modifies this
      ensures Valid()
      ensures Handed([nal] + rest, old(seqNo), out, rest, seqNo, out', ts)
    {
      var s := NextSeq();
      out' := out + [Header(VIDEO_PAYLOAD_TYPE, isLastNal, s, ts, ssrc) + nal];
      HandOne([nal] + rest, s, out, ts);
      assert ([nal] + rest)[1..] == rest;
    }

    /** The fragmentation loop over one unit; `rest` is what the unit's successors will carry. */
    method PacketizeFragments(nal: Nal, isLastNal: bool, ts: int, out: seq<Packet>, ghost rest: seq<seq<byte>>)
      returns (out': seq<Packet>)
      requires Valid() && 0 <= ts < TWO32 && |nal| > SINGLE_MAX
      requires isLastNal <==> rest == []
      modifies this
      ensures Valid()
      ensures Handed(Fragments(codec, nal, codec.HeaderSize()) + rest, old(seqNo), out, rest, seqNo, out', ts)
    {
      hide Handed, Stamped, Header, FragmentHeader;
      out' := out;
      var off := codec.HeaderSize();
      HandNone(Fragments(codec, nal, off) + rest, seqNo, out, ts);
      ghost var all := Fragments(codec, nal, off) + rest;
      while off < |nal|
        invariant codec.HeaderSize() <= off <= |nal| && Valid()
        invariant Handed(all, old(seqNo), out, Fragments(codec, nal, off) + rest, seqNo, out', ts)
        decreases |nal| - off
      {
        var end := Min(off + Budget(codec), |nal|);
        var isLastFragment := end == |nal|;
        ghost var left := Fragments(codec, nal, off) + rest;
        var payload := [codec.WithType(nal[0], codec.FragmentType())] + nal[1..codec.HeaderSize()] +
          [FragmentHeader(off == codec.HeaderSize(), isLastFragment, codec.TypeOf(nal[0]))] + nal[off..end];
        assert left[1..] == Fragments(codec, nal, end) + rest;
        ghost var out0, s0 := out', seqNo;
        var s := NextSeq();
        out' := out' + [Header(VIDEO_PAYLOAD_TYPE, isLastNal && isLastFragment, s, ts, ssrc) + payload];
        HandOne(left, s0, out0, ts);
        HandOn(all, old(seqNo), out, left, s0, out0, left[1..], seqNo, out', ts);
        off := end;
      }
      assert Fragments(codec, nal, off) + rest == rest;
    }

    /**
     After handing over a prefix of `all`: what has been appended, followed by the packets of what
     is left, is what had to be appended in the first place.
     */
    ghost predicate Handed(all: seq<seq<byte>>, seq0: int, out0: seq<Packet>,
                           left: seq<seq<byte>>, seq1: int, out1: seq<Packet>, ts: int)
      requires 0 <= ts < TWO32 && 0 <= ssrc < TWO32 && 0 <= seq0 < TWO16 && 0 <= seq1 < TWO16
    {
      && out1 + Stamped(left, seq1, ts, ssrc) == out0 + Stamped(all, seq0, ts, ssrc)
      && (seq1 + |left|) % TWO16 == (seq0 + |all|) % TWO16
    }

    lemma HandNone(all: seq<seq<byte>>, seq0: int, out0: seq<Packet>, ts: int)
      requires 0 <= ts < TWO32 && 0 <= ssrc < TWO32 && 0 <= seq0 < TWO16
      ensures Handed(all, seq0, out0, all, seq0, out0, ts)
    {
    }

    lemma HandOn(all: seq<seq<byte>>, seq0: int, out0: seq<Packet>, left: seq<seq<byte>>, seq1: int, out1: seq<Packet>,
                 rest: seq<seq<byte>>, seq2: int, out2: seq<Packet>, ts: int)
      requires 0 <= ts < TWO32 && 0 <= ssrc < TWO32 && 0 <= seq0 < TWO16 && 0 <= seq1 < TWO16 && 0 <= seq2 < TWO16
      requires Handed(all, seq0, out0, left, seq1, out1, ts) && Handed(left, seq1, out1, rest, seq2, out2, ts)
      ensures Handed(all, seq0, out0, rest, seq2, out2, ts)
    {
      hide Stamped;
    }

    lemma HandOne(left: seq<seq<byte>>, seq0: int, out0: seq<Packet>, ts: int)
      requires 0 <= ts < TWO32 && 0 <= ssrc < TWO32 && 0 <= seq0 < TWO16 && left != []
      ensures Handed(left, seq0, out0, left[1..], (seq0 + 1) % TWO16,
                     out0 + [Header(VIDEO_PAYLOAD_TYPE, |left| == 1, seq0, ts, ssrc) + left[0]], ts)
    {
      var one := [Header(VIDEO_PAYLOAD_TYPE, |left| == 1, seq0, ts, ssrc) + left[0]];
      var more := Stamped(left[1..], (seq0 + 1) % TWO16, ts, ssrc);
      assert Stamped(left, seq0, ts, ssrc) == one + more;
      hide Stamped, Header;
      CountOn(seq0 + 1, |left| - 1);
      assert out0 + one + more == out0 + (one + more);
    }

    method PacketizeUnits(nals: seq<Nal>, ts: int, out: seq<Packet>) returns (out': seq<Packet>)
      requires Valid() && 0 <= ts < TWO32
      modifies this
      ensures Valid()
      ensures Handed(Payloads(codec, nals), old(seqNo), out, [], seqNo, out', ts)
    {
      hide Handed, Stamped, Header, Fragments;
      out' := out;
      var ni := 0;
      ghost var left := Payloads(codec, nals);
      HandNone(left, seqNo, out, ts);
      assert nals[0..] == nals;
      while ni < |nals|
        invariant 0 <= ni <= |nals| && Valid()
        invariant left == Payloads(codec, nals[ni..])
        invariant Handed(Payloads(codec, nals), old(seqNo), out, left, seqNo, out', ts)
      {
        var nal := nals[ni];
        var isLastNal := ni + 1 == |nals|;
        ghost var rest := Payloads(codec, nals[ni + 1..]);
        assert nals[ni..][1..] == nals[ni + 1..];
        assert left == UnitPayloads(codec, nal) + rest;
        ghost var out0, s0 := out', seqNo;
        if |nal| <= SINGLE_MAX {
          out' := PacketizeSingle(nal, isLastNal, ts, out', rest);
        } else {
          out' := PacketizeFragments(nal, isLastNal, ts, out', rest);
        }
        HandOn(Payloads(codec, nals), old(seqNo), out, left, s0, out0, rest, seqNo, out', ts);
        left := rest;
        ni := ni + 1;
      }
    }

    /** Appends the packets of one access unit to `out`. */
    method Packetize(data: seq<byte>, ptsUsec: int, out: seq<Packet>) returns (out': seq<Packet>)
      requires Valid()
      modifies this
      ensures Valid()
      ensures var ps := UnitPackets(codec, data, ptsUsec, old(seqNo), ssrc);
        out' == out + ps && seqNo == (old(seqNo) + |ps|) % TWO16
    {
      out' := out;
      if |data| == 0 {
        assert Nals(data) == [];
        return;
      }
      var ts := Stamp(ptsUsec);
      var nals := ForEachNal(data);
      if |nals| == 0 { return; }
      out' := PacketizeUnits(nals, ts, out);
      assert out' + [] == out';
    }
  }

  // ------------------------------------------------------------- what a packet looks like

  /** Fragmentation always yields two fragments or more, none of them both first and last. */
  lemma {:induction false} FragmentsAreSeveral(c: Codec, nal: Nal, off: nat)
    requires |nal| > SINGLE_MAX && c.HeaderSize() <= off < |nal|
    ensures off == c.HeaderSize() ==> |Fragments(c, nal, off)| >= 2
    ensures forall p :: p in Fragments(c, nal, off) ==>
      && c.HeaderSize() + 1 < |p| <= 1388
      && (if c.H265? then p[0] / 2 % 64 == 49 else p[0] % 32 == 28) && c.TypeOf(p[0]) == c.FragmentType()
      && !(p[c.HeaderSize()] / 128 == 1 && p[c.HeaderSize()] / 64 % 2 == 1)
    decreases |nal| - off
  {
    var end := FragmentEnd(c, nal, off);
    if end < |nal| {
      FragmentsAreSeveral(c, nal, end);
    }
  }

  /** All fragments but the last are as long as a packet allows. */
  lemma {:induction false} FragmentsAreFull(c: Codec, nal: Nal, off: nat, i: nat)
    requires |nal| > SINGLE_MAX && c.HeaderSize() <= off < |nal| && i < |Fragments(c, nal, off)| - 1
    ensures |Fragments(c, nal, off)[i]| == 1388
    decreases i
  {
    var end := FragmentEnd(c, nal, off);
    if i > 0 {
      FragmentsAreFull(c, nal, end, i - 1);
    }
  }

  lemma {:induction false} PayloadsFit(c: Codec, nals: seq<Nal>)
    requires forall n :: n in nals ==> |n| >= 2
    ensures forall p :: p in Payloads(c, nals) ==> 0 < |p| <= 1388
  {
    if nals != [] {
      PayloadsFit(c, nals[1..]);
      if |nals[0]| > SINGLE_MAX {
        FragmentsAreSeveral(c, nals[0], c.HeaderSize());
      }
    }
  }

  lemma {:induction false} StampedAt(payloads: seq<seq<byte>>, seqNo: int, ts: int, ssrc: int, i: nat)
    requires 0 <= seqNo < TWO16 && 0 <= ts < TWO32 && 0 <= ssrc < TWO32 && i < |payloads|
    ensures Stamped(payloads, seqNo, ts, ssrc)[i] ==
      Header(VIDEO_PAYLOAD_TYPE, i + 1 == |payloads|, NumberAt(seqNo, i), ts, ssrc) + payloads[i]
  {
    hide Stamped, Header, NumberAt;
    StampedFirst(payloads, seqNo, ts, ssrc);
    NextNumbers(seqNo, i);
    if i > 0 {
      StampedAt(payloads[1..], NumberAt(seqNo, 1), ts, ssrc, i - 1);
    }
  }

  lemma StampedFirst(payloads: seq<seq<byte>>, seqNo: int, ts: int, ssrc: int)
    requires 0 <= seqNo < TWO16 && 0 <= ts < TWO32 && 0 <= ssrc < TWO32 && payloads != []
    ensures Stamped(payloads, seqNo, ts, ssrc) ==
      [Header(VIDEO_PAYLOAD_TYPE, |payloads| == 1, seqNo, ts, ssrc) + payloads[0]] +
      Stamped(payloads[1..], NumberAt(seqNo, 1), ts, ssrc)
  {
    hide Header;
  }

  lemma NextNumbers(seqNo: int, i: nat)
    requires 0 <= seqNo < TWO16
    ensures if i == 0 then NumberAt(seqNo, 0) == seqNo else NumberAt(NumberAt(seqNo, 1), i - 1) == NumberAt(seqNo, i)
  {
    if i > 0 {
      CountOn(seqNo + 1, i - 1);
    }
  }

  /**
   Every packet of an access unit is at most 1400 bytes and reads back with its own payload, the
   unit's timestamp, a sequence number one above its predecessor's modulo 2^16, and the marker
   exactly on the last packet.
   */
  lemma UnitPacketsReadBack(c: Codec, data: seq<byte>, ptsUsec: int, seqNo: int, ssrc: int, i: nat)
    requires 0 <= seqNo < TWO16 && 0 <= ssrc < TWO32
    requires i < |UnitPackets(c, data, ptsUsec, seqNo, ssrc)|
    ensures var ps := UnitPackets(c, data, ptsUsec, seqNo, ssrc); var s := (seqNo + i) % TWO16;
      && |ps| == |Payloads(c, Nals(data))|
      && 12 < |ps[i]| <= 1400 && SeqOf(ps[i]) == s
      && Parse(ps[i]) == Some(Datagram(i + 1 == |ps|, VIDEO_PAYLOAD_TYPE, s, Stamp(ptsUsec), ssrc,
                                       Payloads(c, Nals(data))[i]))
  {
    NalsWellFormed(data);
    PayloadsFit(c, Nals(data));
    assert Payloads(c, Nals(data))[i] in Payloads(c, Nals(data));
    var payload := Payloads(c, Nals(data))[i];
    StampedAt(Payloads(c, Nals(data)), seqNo, Stamp(ptsUsec), ssrc, i);
    ParseInvertsHeader(VIDEO_PAYLOAD_TYPE, i + 1 == |Payloads(c, Nals(data))|, (seqNo + i) % TWO16,
                       Stamp(ptsUsec), ssrc, payload);
  }
}
