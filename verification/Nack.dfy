/**
 Generic NACKs (section 6.2.1 of RFC 4585): what the client packs (RtpReceiver.java,
 sendNacksForRange) and what the streamer reads back (rtp_server.cpp, handle_rtcp).
 */
module Nack {
  import opened Bytes

  function Pow2(i: nat): (p: nat)
    ensures p > 0
  {
    if i == 0 then 1 else 2 * Pow2(i - 1)
  }

  predicate Bit(n: nat, i: nat) {
    if i == 0 then n % 2 == 1 else Bit(n / 2, i - 1)
  }

  /** n | (1 << i) */
  function WithBit(n: nat, i: nat): nat {
    if Bit(n, i) then n else n + Pow2(i)
  }

  lemma {:induction false} OnesBits(c: nat, i: nat)
    ensures Bit(Pow2(c) - 1, i) <==> i < c
  {
    if i > 0 {
      if c > 0 {
        assert (Pow2(c) - 1) / 2 == Pow2(c - 1) - 1;
        OnesBits(c - 1, i - 1);
      } else {
        OnesBits(0, i - 1);
      }
    }
  }

  lemma {:induction false} Pow2Mono(a: nat, b: nat)
    requires a <= b
    ensures Pow2(a) <= Pow2(b)
    decreases b
  {
    if a < b {
      Pow2Mono(a, b - 1);
    }
  }

  lemma Pow2At16()
    ensures Pow2(16) == TWO16
  {
    assert Pow2(4) == 16;
    assert Pow2(8) == 16 * Pow2(4);
    assert Pow2(12) == 16 * Pow2(8);
    assert Pow2(16) == 16 * Pow2(12);
  }

  // ------------------------------------------------------------------ the client

  /** One feedback packet: the first number missing and a bitmap of the 16 after it. */
  function Feedback(ssrc: int, pid: int, blp: int): seq<byte>
    requires 0 <= ssrc < TWO32 && 0 <= pid < TWO16 && 0 <= blp < TWO16
  {
    [0x81, 205, 0, 3, 0, 0, 0, 0] + BE32(ssrc) + BE16(pid) + BE16(blp)
  }

  /** How many of the numbers first, first + 1, ... one packet covers. */
  function Covered(first: int, after: int): int {
    Min(17, after - first)
  }

  function Feedbacks(ssrc: int, first: int, after: int): seq<seq<byte>>
    requires 0 <= ssrc < TWO32
    decreases after - first
  {
    if first >= after then []
    else
      var n := Covered(first, after);
      Pow2Mono(n - 1, 16);
      Pow2At16();
      [Feedback(ssrc, first % TWO16, Pow2(n - 1) - 1)] + Feedbacks(ssrc, first + n, after)
  }

  /** The inner loop: the numbers after extPid that the same packet can name. */
  method PackBitmap(extPid: int, afterGap: int) returns (blp: int, count: nat)
    requires extPid < afterGap
    ensures count == Covered(extPid, afterGap) - 1 <= 16 && blp == Pow2(count) - 1
  {
    hide Pow2;
    blp, count := 0, 0;
    assert Pow2(0) == 1 by { PowZero(); }
    for i := 0 to 16
      invariant count == Min(i, afterGap - extPid - 1)
      invariant blp == Pow2(count) - 1
    {
      if extPid + 1 + i >= afterGap { break; }
      OnesBits(count, count);
      PowNext(count);
      blp := WithBit(blp, i);
      count := count + 1;
    }
  }

  lemma PowZero()
    ensures Pow2(0) == 1
  {
  }

  lemma PowNext(i: nat)
    ensures Pow2(i + 1) == 2 * Pow2(i)
  {
  }

  lemma FeedbacksFirst(ssrc: int, first: int, after: int)
    requires 0 <= ssrc < TWO32 && first < after
    ensures var n := Covered(first, after);
      && 0 < n && 0 <= Pow2(n - 1) - 1 < TWO16
      && Feedbacks(ssrc, first, after) ==
           [Feedback(ssrc, first % TWO16, Pow2(n - 1) - 1)] + Feedbacks(ssrc, first + n, after)
  {
    hide Feedback;
    Pow2Mono(Covered(first, after) - 1, 16);
    Pow2At16();
  }

  lemma FeedbacksNone(ssrc: int, first: int, after: int)
    requires 0 <= ssrc < TWO32 && first >= after
    ensures Feedbacks(ssrc, first, after) == []
  {
  }

  method SendNacksForRange(ssrc: int, firstMissing: int, afterGap: int) returns (sent: seq<seq<byte>>)
    requires 0 <= ssrc < TWO32
    ensures sent == Feedbacks(ssrc, firstMissing, afterGap)
  {
    hide *;
    sent := [];
    var extPid := firstMissing;
    while extPid < afterGap
      invariant Feedbacks(ssrc, firstMissing, afterGap) == sent + Feedbacks(ssrc, extPid, afterGap)
      decreases afterGap - extPid
    {
      var blp, count := PackBitmap(extPid, afterGap);
      FeedbacksFirst(ssrc, extPid, afterGap);
      sent := sent + [Feedback(ssrc, extPid % TWO16, blp)];
      extPid := extPid + 1 + count;
    }
    FeedbacksNone(ssrc, extPid, afterGap);
  }

  // ------------------------------------------------------------------ the streamer

  /** What a datagram from the client asks for. */
  datatype Request = Nothing | Keyframe | Resend(video: bool, seqs: seq<int>)

  /** The numbers a bitmap names, from bit i on. */
  function Named(pid: int, blp: nat, i: nat): seq<int>
    decreases 16 - i, blp
  {
    if i >= 16 then []
    else (if Bit(blp, i) then [(pid + 1 + i) % TWO16] else []) + Named(pid, blp, i + 1)
  }

  function Entries(data: seq<byte>, off: nat, end: nat): seq<int>
    requires end <= |data|
    decreases end - off
  {
    if off + 4 > end then []
    else
      var pid := Read16(data, off);
      [pid] + Named(pid, Read16(data, off + 2), 0) + Entries(data, off + 4, end)
  }

  function Asked(data: seq<byte>, videoSsrc: int, audioSsrc: int): Request {
    if |data| < 8 || data[0] / 64 != 2 then Nothing
    else
      var fmt, pt, len := data[0] % 32, data[1], (Read16(data, 2) + 1) * 4;
      if len > |data| || len < 8 then Nothing
      else if pt == 206 && fmt == 1 then Keyframe
      else if pt == 205 && fmt == 1 && len >= 16 then
        var ssrc := Read32(data, 8);
        if ssrc == videoSsrc || ssrc == audioSsrc then Resend(ssrc == videoSsrc, Entries(data, 12, len)) else Nothing
      else Nothing
  }

  method ReadBitmap(pid: int, blp: nat) returns (seqs: seq<int>)
    ensures seqs == Named(pid, blp, 0)
  {
    hide Bit;
    seqs := [];
    ghost var left := Named(pid, blp, 0);
    for i := 0 to 16
      invariant Named(pid, blp, 0) == seqs + left && left == Named(pid, blp, i)
    {
      ghost var more := Named(pid, blp, i + 1);
      if Bit(blp, i) {
        assert left == [(pid + 1 + i) % TWO16] + more;
        seqs := seqs + [(pid + 1 + i) % TWO16];
      }
      left := more;
    }
  }

  /** The NACK branch of handle_rtcp: the numbers `retransmit` is called with, in order. */
  method ReadEntries(data: seq<byte>, pktLen: nat) returns (seqs: seq<int>)
    requires 12 <= pktLen <= |data|
    ensures seqs == Entries(data, 12, pktLen)
  {
    hide Named;
    seqs := [];
    var off := 12;
    while off + 4 <= pktLen
      invariant 12 <= off <= pktLen
      invariant Entries(data, 12, pktLen) == seqs + Entries(data, off, pktLen)
      decreases pktLen - off
    {
      var pid := Read16(data, off);
      var blp := Read16(data, off + 2);
      var more := ReadBitmap(pid, blp);
      assert Entries(data, off, pktLen) == [pid] + more + Entries(data, off + 4, pktLen);
      seqs := seqs + [pid] + more;
      off := off + 4;
    }
  }

  // ------------------------------------------------------------------ exactness

  /** The numbers first, ..., after - 1, as they appear on the wire. */
  function Wrapped(first: int, after: int): seq<int>
    decreases after - first
  {
    if first >= after then [] else [first % TWO16] + Wrapped(first + 1, after)
  }

  lemma {:induction false} NamedOnes(first: int, c: nat, i: nat)
    requires c <= 16 && i <= 16
    ensures Named(first % TWO16, Pow2(c) - 1, i) == Wrapped(first + 1 + i, first + 1 + c)
    decreases 16 - i
  {
    if i < 16 {
      OnesBits(c, i);
      NamedOnes(first, c, i + 1);
      CountOn(first, 1 + i);
      hide Pow2, Bit;
    }
  }

  lemma FeedbackReadsBack(ssrc: int, pid: int, blp: int)
    requires 0 <= ssrc < TWO32 && 0 <= pid < TWO16 && 0 <= blp < TWO16
    ensures var d := Feedback(ssrc, pid, blp);
      && |d| == 16 && d[0] == 0x81 && d[1] == 205 && Read16(d, 2) == 3
      && Read32(d, 8) == ssrc && Read16(d, 12) == pid && Read16(d, 14) == blp
  {
    var d := Feedback(ssrc, pid, blp);
    assert d[8] == BE32(ssrc)[0] && d[9] == BE32(ssrc)[1];
    assert d[10] == BE32(ssrc)[2] && d[11] == BE32(ssrc)[3];
  }

  lemma WrappedFirst(first: int, after: int)
    requires first < after
    ensures Wrapped(first, after) == [first % TWO16] + Wrapped(first + 1, after)
  {
  }

  lemma FeedbackAsks(first: int, c: nat, videoSsrc: int, audioSsrc: int)
    requires c <= 16 && Pow2(c) <= TWO16 && 0 <= videoSsrc < TWO32
    ensures Asked(Feedback(videoSsrc, first % TWO16, Pow2(c) - 1), videoSsrc, audioSsrc) ==
      Resend(true, Wrapped(first, first + 1 + c))
  {
    hide *;
    WrappedFirst(first, first + 1 + c);
    var d := Feedback(videoSsrc, first % TWO16, Pow2(c) - 1);
    FeedbackReadsBack(videoSsrc, first % TWO16, Pow2(c) - 1);
    NamedOnes(first, c, 0);
    OneAsked(d, videoSsrc, audioSsrc);
  }

  lemma OneAsked(d: seq<byte>, videoSsrc: int, audioSsrc: int)
    requires |d| == 16 && d[0] == 0x81 && d[1] == 205 && Read16(d, 2) == 3 && Read32(d, 8) == videoSsrc
    ensures Asked(d, videoSsrc, audioSsrc) ==
      Resend(true, [Read16(d, 12)] + Named(Read16(d, 12), Read16(d, 14), 0))
  {
    hide Read16, Read32, Named, Entries;
    OneEntry(d);
  }

  lemma OneEntry(d: seq<byte>)
    requires |d| == 16
    ensures Entries(d, 12, 16) == [Read16(d, 12)] + Named(Read16(d, 12), Read16(d, 14), 0)
  {
    hide Named, Read16;
    assert Entries(d, 16, 16) == [];
  }

  /** All that the streamer reads from a sequence of datagrams. */
  function AllAsked(ds: seq<seq<byte>>, videoSsrc: int, audioSsrc: int): seq<int> {
    if ds == [] then []
    else
      (match Asked(ds[0], videoSsrc, audioSsrc) case Resend(_, seqs) => seqs case _ => []) +
      AllAsked(ds[1..], videoSsrc, audioSsrc)
  }

  lemma {:induction false} WrappedConcat(a: int, b: int, c: int)
    requires a <= b <= c
    ensures Wrapped(a, c) == Wrapped(a, b) + Wrapped(b, c)
    decreases b - a
  {
    if a < b {
      WrappedConcat(a + 1, b, c);
    }
  }

  lemma AskedCons(f: seq<byte>, fs: seq<seq<byte>>, videoSsrc: int, audioSsrc: int, seqs: seq<int>)
    requires Asked(f, videoSsrc, audioSsrc) == Resend(true, seqs)
    ensures AllAsked([f] + fs, videoSsrc, audioSsrc) == seqs + AllAsked(fs, videoSsrc, audioSsrc)
  {
    hide Asked;
    assert ([f] + fs)[1..] == fs;
  }

  /** The streamer is asked for exactly the missing range, in order, in as few packets as can be. */
  lemma {:induction false} NacksAreExact(first: int, after: int, videoSsrc: int, audioSsrc: int)
    requires 0 <= videoSsrc < TWO32
    ensures AllAsked(Feedbacks(videoSsrc, first, after), videoSsrc, audioSsrc) == Wrapped(first, after)
    ensures first <= after ==> |Feedbacks(videoSsrc, first, after)| == (after - first + 16) / 17
    decreases after - first
  {
    hide Asked, Feedback, Pow2;
    if first < after {
      hide Wrapped, AllAsked;
      var n := Covered(first, after);
      Pow2Mono(n - 1, 16);
      Pow2At16();
      FeedbackAsks(first, n - 1, videoSsrc, audioSsrc);
      NacksAreExact(first + n, after, videoSsrc, audioSsrc);
      WrappedConcat(first, first + n, after);
      var f := Feedback(videoSsrc, first % TWO16, Pow2(n - 1) - 1);
      var fs := Feedbacks(videoSsrc, first + n, after);
      assert Feedbacks(videoSsrc, first, after) == [f] + fs;
      AskedCons(f, fs, videoSsrc, audioSsrc, Wrapped(first, first + n));
    }
  }

  /** Up to 2^16 numbers, each is asked for once. */
  lemma {:induction false} WrappedAt(first: int, after: int, i: nat)
    requires i < after - first
    ensures |Wrapped(first, after)| == after - first && Wrapped(first, after)[i] == (first + i) % TWO16
    decreases i, after - first
  {
    if i > 0 {
      WrappedAt(first + 1, after, i - 1);
    } else if first + 1 < after {
      WrappedAt(first + 1, after, 0);
    }
  }

  lemma WrappedDistinct(first: int, after: int, i: nat, j: nat)
    requires i < j < after - first <= TWO16
    ensures |Wrapped(first, after)| == after - first && Wrapped(first, after)[i] != Wrapped(first, after)[j]
  {
    WrappedAt(first, after, i);
    WrappedAt(first, after, j);
    hide Wrapped;
    ApartModulo(first + i, first + j);
  }

  lemma ApartModulo(x: int, y: int)
    requires x < y < x + TWO16
    ensures x % TWO16 != y % TWO16
  {
    assert x == TWO16 * (x / TWO16) + x % TWO16 && y == TWO16 * (y / TWO16) + y % TWO16;
  }

  // ------------------------------------------------------------------ asking for a keyframe

  /** sendPli: a picture loss indication. */
  function Pli(ssrc: int): seq<byte>
    requires 0 <= ssrc < TWO32
  {
    [0x81, 206, 0, 2, 0, 0, 0, 0] + BE32(ssrc)
  }

  /** It is read as a request for a keyframe; a feedback packet that names numbers never is. */
  lemma PliAsksForAKeyframe(ssrc: int, videoSsrc: int, audioSsrc: int, pid: int, blp: int)
    requires 0 <= ssrc < TWO32 && 0 <= pid < TWO16 && 0 <= blp < TWO16
    ensures Asked(Pli(ssrc), videoSsrc, audioSsrc) == Keyframe
    ensures Asked(Feedback(ssrc, pid, blp), videoSsrc, audioSsrc) != Keyframe
  {
    var d, f := Pli(ssrc), Feedback(ssrc, pid, blp);
    assert |d| == 12 && d[0] == 0x81 && d[1] == 206 && Read16(d, 2) == 2;
    assert f[0] == 0x81 && f[1] == 205;
    hide Feedback, Entries;
  }
}
