/**
 From the encoder's access units, through the packetizer, a network that loses, repeats and reorders,
 and the receive loop, to the frames the decoder is given.
 */
module EndToEnd {
  import opened Bytes
  import opened AnnexB
  import opened Rtp
  import opened Packetizer
  import opened Depacketizer
  import opened RoundTrip
  import opened Receiver
  import opened Channel

  /** One encoded access unit, as broadcast. */
  datatype Unit = Unit(data: seq<byte>, ptsUsec: int)

  /** The encoder emits NAL units, of the types it may emit. */
  ghost predicate Sendable(c: Codec, units: seq<Unit>) {
    forall u :: u in units ==> Nals(u.data) != [] && Legal(c, Nals(u.data))
  }

  ghost function Parts(c: Codec, u: Unit): (ps: seq<seq<byte>>)
    ensures Nals(u.data) != [] ==> ps != []
  {
    Payloads(c, Nals(u.data))
  }

  ghost function PtsOf(u: Unit): int {
    PtsUsec(Stamp(u.ptsUsec))
  }

  ghost function EventsOf(c: Codec, u: Unit): (es: seq<Event>)
    ensures |es| == |Parts(c, u)|
  {
    Marked(Parts(c, u), PtsOf(u))
  }

  /** The j-th packet of a unit, as the depacketizer is fed it. */
  ghost function PacketOf(c: Codec, u: Unit, j: nat): Event
    requires j < |Parts(c, u)|
  {
    Event.Packet(Parts(c, u)[j], j + 1 == |Parts(c, u)|, PtsOf(u))
  }

  ghost function FrameOf(c: Codec, u: Unit): Frame {
    Whole(c, Nals(u.data), PtsOf(u))
  }

  /** What a unit comes to without its first k NAL units. */
  ghost function RestOf(c: Codec, u: Unit, k: nat): Frame
    requires k <= |Nals(u.data)|
  {
    Whole(c, Nals(u.data)[k..], PtsOf(u))
  }

  /** A NAL unit begins with packet j. */
  ghost predicate Opens(c: Codec, u: Unit, j: int) {
    j == 0 || exists k: nat :: NalStart(c, Nals(u.data), j, k)
  }

  /** A frame of a unit joined at packet j: a NAL unit begins there, and it is the unit from that one on. */
  ghost predicate Joined(c: Codec, u: Unit, j: int, f: Frame) {
    exists k: nat :: NalStart(c, Nals(u.data), j, k) && f == RestOf(c, u, k)
  }

  ghost function Count(c: Codec, units: seq<Unit>): nat {
    if units == [] then 0 else Count(c, units[..|units| - 1]) + |Parts(c, units[|units| - 1])|
  }

  /** What the packetizer emits for consecutive access units, its counter starting at s0. */
  ghost function Sent(c: Codec, ssrc: int, units: seq<Unit>, s0: int): (ps: seq<Packet>)
    requires 0 <= ssrc < TWO32 && 0 <= s0 < TWO16
    ensures |ps| == Count(c, units)
  {
    if units == [] then []
    else
      var m := |units| - 1;
      var before := Sent(c, ssrc, units[..m], s0);
      before + UnitPackets(c, units[m].data, units[m].ptsUsec, NumberAt(s0, |before|), ssrc)
  }

  // ------------------------------------------------------------------ times

  /** In 32 bits of clock ticks, this many microseconds fit. */
  const TIMES: int := 47_721_858_844

  /** The client reads a unit's time back to within 12 microseconds, never later than it was. */
  lemma TimeReadsBack(p: int)
    requires 0 <= p < TIMES
    ensures p - 12 < PtsUsec(Stamp(p)) <= p
  {
    TicksOf(p);
    hide Stamp, PtsUsec;
    TicksFit(p);
    TicksBack(9 * p / 100);
    RoundedTwice(p);
  }

  lemma TicksFit(p: int)
    requires 0 <= p < TIMES
    ensures 9 * p / 100 % TWO32 == 9 * p / 100 >= 0
  {
  }

  lemma TicksBack(t: int)
    ensures PtsUsec(t) == 100 * t / 9
  {
  }

  lemma RoundedTwice(p: int)
    ensures p - 12 < 100 * (9 * p / 100) / 9 <= p
  {
    var t := 9 * p / 100;
    assert 9 * p - 100 < 100 * t <= 9 * p;
  }

  lemma TicksOf(p: int)
    requires 0 <= p && p * 90_000 < 0x1_0000_0000_0000_0000
    ensures Stamp(p) == 9 * p / 100 % TWO32
  {
    assert p * 90_000 / 1_000_000 == 9 * p / 100;
  }

  /** One second is 90000 ticks, across the wrap. */
  lemma SecondIsTicks(p: int)
    requires 0 <= p && (p + 1_000_000) * 90_000 < 0x1_0000_0000_0000_0000
    ensures Stamp(p + 1_000_000) == (Stamp(p) + 90_000) % TWO32
  {
    hide Stamp;
    TicksOf(p);
    TicksOf(p + 1_000_000);
    assert 9 * (p + 1_000_000) / 100 == 9 * p / 100 + 90_000;
    TicksGoOn(9 * p / 100);
  }

  lemma TicksGoOn(t: int)
    ensures (t % TWO32 + 90_000) % TWO32 == (t + 90_000) % TWO32
  {
  }

  /** Unless the clock has wrapped, the frame's time is the unit's, to within 12 microseconds. */
  predicate Timely(u: Unit, f: Frame) {
    0 <= u.ptsUsec < TIMES ==> u.ptsUsec - 12 < f.ptsUsec <= u.ptsUsec
  }

  // ------------------------------------------------------------------ places in the stream

  /** Place n of the stream is the j-th packet of unit u. */
  ghost predicate At(c: Codec, units: seq<Unit>, n: int, u: nat, j: nat) {
    u < |units| && j < |Parts(c, units[u])| && n == Count(c, units[..u]) + j
  }

  lemma {:induction false} CountGrows(c: Codec, units: seq<Unit>, u: nat, v: nat)
    requires u <= v <= |units|
    ensures Count(c, units[..u]) <= Count(c, units[..v])
    ensures u < v ==> Count(c, units[..u]) + |Parts(c, units[u])| <= Count(c, units[..v])
    decreases v - u
  {
    hide Payloads, Nals, Parts;
    if u < v {
      CountGrows(c, units, u, v - 1);
      assert units[..v][..v - 1] == units[..v - 1];
    }
  }

  lemma {:induction false} Locate(c: Codec, units: seq<Unit>, n: nat) returns (u: nat, j: nat)
    requires n < Count(c, units)
    ensures At(c, units, n, u, j)
    decreases |units|
  {
    var m := |units| - 1;
    var before := units[..m];
    if n < Count(c, before) {
      u, j := Locate(c, before, n);
      assert before[..u] == units[..u];
    } else {
      u, j := m, n - Count(c, before);
    }
  }

  lemma UnitPacketsCount(c: Codec, ssrc: int, u: Unit, s: int)
    requires 0 <= ssrc < TWO32 && 0 <= s < TWO16
    ensures |UnitPackets(c, u.data, u.ptsUsec, s, ssrc)| == |Parts(c, u)|
  {
    hide Nals, Payloads;
  }

  ghost function LastPackets(c: Codec, ssrc: int, units: seq<Unit>, s0: int): (ps: seq<Packet>)
    requires 0 <= ssrc < TWO32 && 0 <= s0 < TWO16 && units != []
    ensures |ps| == |Parts(c, units[|units| - 1])|
  {
    var m := |units| - 1;
    UnitPacketsCount(c, ssrc, units[m], NumberAt(s0, Count(c, units[..m])));
    UnitPackets(c, units[m].data, units[m].ptsUsec, NumberAt(s0, Count(c, units[..m])), ssrc)
  }

  /** The packets of the last unit come last. */
  lemma SentSplit(c: Codec, ssrc: int, units: seq<Unit>, s0: int)
    requires 0 <= ssrc < TWO32 && 0 <= s0 < TWO16 && units != []
    ensures Sent(c, ssrc, units, s0) == Sent(c, ssrc, units[..|units| - 1], s0) + LastPackets(c, ssrc, units, s0)
  {
    hide Nals, Stamp, UnitPackets, NumberAt, Parts;
  }

  lemma {:induction false} SentIndex(c: Codec, ssrc: int, units: seq<Unit>, s0: int, n: int, u: nat, j: nat)
    requires 0 <= ssrc < TWO32 && 0 <= s0 < TWO16 && At(c, units, n, u, j)
    ensures n < Count(c, units)
    ensures var ps := UnitPackets(c, units[u].data, units[u].ptsUsec, NumberAt(s0, Count(c, units[..u])), ssrc);
      |ps| == |Parts(c, units[u])| && Sent(c, ssrc, units, s0)[n] == ps[j]
    decreases |units|
  {
    hide Count, UnitPackets, NumberAt, Sent, Parts;
    var m := |units| - 1;
    var before := units[..m];
    CountSnoc(c, units, m);
    assert units[..m + 1] == units;
    SentSplit(c, ssrc, units, s0);
    if u < m {
      assert before[..u] == units[..u];
      SentIndex(c, ssrc, before, s0, n, u, j);
    }
  }

  lemma UnitReadBack(c: Codec, st: Stream, u: Unit, s: int, j: nat)
    requires 0 <= st.ssrc < TWO32 && st.payloadType == VIDEO_PAYLOAD_TYPE && 0 <= s < TWO16
    requires j < |UnitPackets(c, u.data, u.ptsUsec, s, st.ssrc)| == |Parts(c, u)|
    ensures VideoIn(st, UnitPackets(c, u.data, u.ptsUsec, s, st.ssrc)[j]) ==
      Some(Datagram(j + 1 == |Parts(c, u)|, VIDEO_PAYLOAD_TYPE, NumberAt(s, j), Stamp(u.ptsUsec), st.ssrc,
                    Parts(c, u)[j]))
  {
    hide Payloads, Nals, Stamp, UnitPackets, Parse;
    UnitPacketsReadBack(c, u.data, u.ptsUsec, s, st.ssrc, j);
  }

  lemma NumbersGoOn(s0: int, k: nat, j: nat)
    ensures NumberAt(NumberAt(s0, k), j) == NumberAt(s0, k + j)
  {
  }

  /** The packet at a place, read back by the client. */
  lemma SentAt(c: Codec, st: Stream, units: seq<Unit>, s0: int, n: int, u: nat, j: nat)
    requires 0 <= st.ssrc < TWO32 && st.payloadType == VIDEO_PAYLOAD_TYPE && 0 <= s0 < TWO16
    requires At(c, units, n, u, j)
    ensures n < Count(c, units)
    ensures VideoIn(st, Sent(c, st.ssrc, units, s0)[n]) ==
      Some(Datagram(j + 1 == |Parts(c, units[u])|, VIDEO_PAYLOAD_TYPE, NumberAt(s0, n),
                    Stamp(units[u].ptsUsec), st.ssrc, Parts(c, units[u])[j]))
  {
    hide Sent, Count, Payloads, Nals, Stamp, UnitPackets, Parse, NumberAt;
    var s := NumberAt(s0, Count(c, units[..u]));
    SentIndex(c, st.ssrc, units, s0, n, u, j);
    UnitReadBack(c, st, units[u], s, j);
    NumbersGoOn(s0, Count(c, units[..u]), j);
  }

  lemma SentNumbered(c: Codec, st: Stream, units: seq<Unit>, s0: int)
    requires 0 <= st.ssrc < TWO32 && st.payloadType == VIDEO_PAYLOAD_TYPE && 0 <= s0 < TWO16
    ensures Numbered(st, Sent(c, st.ssrc, units, s0), s0)
  {
    hide VideoIn, Sent;
    var packets := Sent(c, st.ssrc, units, s0);
    forall n | 0 <= n < |packets|
      ensures VideoIn(st, packets[n]).Some? && VideoIn(st, packets[n]).value.seqNo == (s0 + n) % TWO16
    {
      var u, j := Locate(c, units, n);
      SentAt(c, st, units, s0, n, u, j);
    }
  }

  lemma {:induction false} MarkedAt(ps: seq<seq<byte>>, ptsUsec: int, j: nat)
    requires j < |ps|
    ensures Marked(ps, ptsUsec)[j] == Event.Packet(ps[j], j + 1 == |ps|, ptsUsec)
  {
    if j > 0 {
      MarkedAt(ps[1..], ptsUsec, j - 1);
    }
  }

  lemma EventAt(c: Codec, st: Stream, units: seq<Unit>, s0: int, n: int, u: nat, j: nat)
    requires 0 <= st.ssrc < TWO32 && st.payloadType == VIDEO_PAYLOAD_TYPE && 0 <= s0 < TWO16
    requires At(c, units, n, u, j)
    ensures EventOf(VideoOf(st, Sent(c, st.ssrc, units, s0), n)) == PacketOf(c, units[u], j)
  {
    hide VideoIn, Sent, Payloads;
    SentAt(c, st, units, s0, n, u, j);
  }

  // ------------------------------------------------------------------ what the sink has seen

  /** Place n0, where reception began, lies inside unit u rather than at its start. */
  ghost predicate Inside(c: Codec, units: seq<Unit>, n0: int, u: nat) {
    u <= |units| && Count(c, units[..u]) < n0
  }

  ghost predicate IdrAt(c: Codec, units: seq<Unit>, u: nat) {
    u < |units| && HasIdr(c, Nals(units[u].data))
  }

  /** In sent order, none twice; each but the first is an IDR unit or directly follows the one before it. */
  ghost predicate Chained(c: Codec, units: seq<Unit>, us: seq<nat>) {
    forall i :: 0 < i < |us| ==> us[i - 1] < us[i] && (us[i] == us[i - 1] + 1 || IdrAt(c, units, us[i]))
  }

  /** What unit u looks like as the first frame, or as a later one. */
  ghost predicate Shown(c: Codec, units: seq<Unit>, n0: int, u: nat, first: bool, f: Frame) {
    u < |units| &&
    if first && Inside(c, units, n0, u) then Joined(c, units[u], n0 - Count(c, units[..u]), f)
    else f == FrameOf(c, units[u])
  }

  lemma ShownTimely(c: Codec, units: seq<Unit>, n0: int, u: nat, first: bool, f: Frame)
    requires Shown(c, units, n0, u, first, f)
    ensures Timely(units[u], f)
  {
    hide AnnexB4, HasIdr, NalStart, Nals, Stamp, PtsUsec;
    if 0 <= units[u].ptsUsec < TIMES {
      TimeReadsBack(units[u].ptsUsec);
    }
  }

  /** A unit without its first NAL units is shorter. */
  lemma JoinedIsNotWhole(c: Codec, u: Unit, j: int, f: Frame)
    requires Joined(c, u, j, f)
    ensures f != FrameOf(c, u)
  {
    hide AnnexB4, HasIdr, Payloads;
    var k: nat :| NalStart(c, Nals(u.data), j, k) && f == RestOf(c, u, k);
    SuffixShorter(Nals(u.data), k);
  }

  /**
   The frames are the units us, in sent order, none twice, all before `limit`; each but the first holds
   an IDR or directly follows its predecessor; and all are byte for byte the unit sent, except that a
   first unit joined inside came out without its leading NAL units.
   */
  ghost predicate Chronicle(c: Codec, units: seq<Unit>, n0: int, frames: seq<Frame>, us: seq<nat>, limit: nat) {
    && |us| == |frames| && limit <= |units|
    && (forall i :: 0 <= i < |us| ==> us[i] < limit && n0 < Count(c, units[..us[i] + 1]))
    && Chained(c, units, us)
    && (forall i :: 0 <= i < |us| ==> Shown(c, units, n0, us[i], i == 0, frames[i]))
  }

  lemma ChronicleGrows(c: Codec, units: seq<Unit>, n0: int, frames: seq<Frame>, us: seq<nat>, u: nat, f: Frame)
    requires u < |units| && Chronicle(c, units, n0, frames, us, u) && n0 < Count(c, units[..u + 1])
    requires us == [] || us[|us| - 1] + 1 == u || IdrAt(c, units, u)
    requires Shown(c, units, n0, u, us == [], f)
    ensures Chronicle(c, units, n0, frames + [f], us + [u], u + 1)
  {
    hide Shown, IdrAt, Count;
  }

  lemma ChronicleWaits(c: Codec, units: seq<Unit>, n0: int, frames: seq<Frame>, us: seq<nat>, u: nat, v: nat)
    requires u <= v <= |units| && Chronicle(c, units, n0, frames, us, u)
    ensures Chronicle(c, units, n0, frames, us, v)
  {
    hide Shown, IdrAt, Count;
  }

  /**
   Where reception stands: j packets of unit u are behind it. Unless the unit is lost, the depacketizer
   is where the unit's packets from `from` on took it from boundary state b.
   */
  datatype Standing = Standing(u: nat, j: nat, from: nat, lost: bool, b: Depack, us: seq<nat>)

  ghost function Reached(c: Codec, units: seq<Unit>, p: Standing): int {
    if p.u <= |units| then Count(c, units[..p.u]) + p.j else -1
  }

  ghost predicate Stands(c: Codec, units: seq<Unit>, n0: int, d: Depack, frames: seq<Frame>, p: Standing) {
    && p.u <= |units|
    && (p.j > 0 ==> p.u < |units| && p.j < |Parts(c, units[p.u])|)
    && n0 < Reached(c, units, p)
    && Chronicle(c, units, n0, frames, p.us, p.u)
    && (if p.lost then p.j > 0 && Lost(d, PtsOf(units[p.u]))
        else
          && AtBoundary(p.b)
          && (p.b.awaitingKeyframe || p.us == [] || p.us[|p.us| - 1] + 1 == p.u)
          && (if p.j == 0 then p.b == d && p.from == 0
              else p.from < p.j && Run(c, p.b, EventsOf(c, units[p.u])[p.from..p.j]) == (d, []))
          && (if p.from > 0 then p.us == [] && n0 == Count(c, units[..p.u]) + p.from
              else !Inside(c, units, n0, p.u)))
  }

  /** Place n was handed over: at most the unit that ends there has been shown since. */
  ghost predicate Adds(c: Codec, units: seq<Unit>, us: seq<nat>, us': seq<nat>, n: int) {
    us' == us || (|us'| > |us| && us' == us + [us'[|us|]] && Ends(c, units, us'[|us|], n))
  }

  /** Place n is the last of unit u. */
  ghost predicate Ends(c: Codec, units: seq<Unit>, u: nat, n: int) {
    u < |units| && n == Count(c, units[..u + 1]) - 1
  }

  /** A unit followed from packet `from` to its last, from a boundary: what comes out, and what is awaited. */
  lemma UnitOutcome(c: Codec, u: Unit, b: Depack, from: nat, r: (Depack, seq<Frame>))
    requires Nals(u.data) != [] && Legal(c, Nals(u.data)) && AtBoundary(b) && from < |Parts(c, u)|
    requires r == Run(c, b, EventsOf(c, u)[from..])
    ensures AtBoundary(r.0)
    ensures if r.1 == [] then r.0.awaitingKeyframe
            else |r.1| == 1 && !r.0.awaitingKeyframe
                 && if from == 0 then r.1[0] == FrameOf(c, u) else Joined(c, u, from, r.1[0])
    ensures r.1 != [] && from == 0 && b.awaitingKeyframe ==> HasIdr(c, Nals(u.data))
    ensures Fits(Nals(u.data)) && !b.awaitingKeyframe && Opens(c, u, from) ==> r.1 != []
  {
    hide Run, Marked, Payloads, AnnexB4, Fits, HasIdr, NalStart;
    MarkedDrop(Parts(c, u), PtsOf(u), from);
    if from == 0 {
      assert Parts(c, u)[0..] == Parts(c, u);
      UnitRoundTrip(c, b, Nals(u.data), PtsOf(u));
    } else {
      var k := PartialUnit(c, b, Nals(u.data), from, PtsOf(u));
      if k.Some? {
        NalStartBounds(c, Nals(u.data), from, k.value);
        assert RestOf(c, u, k.value) == Whole(c, Nals(u.data)[k.value..], PtsOf(u));
        FitsRest(Nals(u.data), k.value);
      }
    }
  }

  lemma FitsRest(nals: seq<Nal>, k: nat)
    requires 0 < k < |nals|
    ensures Fits(nals) ==> Fits(nals[k..])
  {
    hide AnnexB4;
    SuffixShorter(nals, k);
  }

  lemma UnitEnds(c: Codec, units: seq<Unit>, n0: int, frames: seq<Frame>, p: Standing, d': Depack, f: Option<Frame>)
    returns (p': Standing)
    requires p.u < |units| && AtBoundary(d')
    requires Chronicle(c, units, n0, frames, p.us, p.u) && n0 < Count(c, units[..p.u + 1])
    requires f == None ==> d'.awaitingKeyframe || p.us == []
    requires f.Some? ==> Shown(c, units, n0, p.u, p.us == [], f.value)
    requires f.Some? ==> p.us == [] || p.us[|p.us| - 1] + 1 == p.u || IdrAt(c, units, p.u)
    ensures Stands(c, units, n0, d', frames + ToSeq(f), p') && p'.u == p.u + 1 && p'.j == 0
    ensures Adds(c, units, p.us, p'.us, Count(c, units[..p.u + 1]) - 1)
  {
    hide Run, Chronicle, Shown, Lost, AtBoundary, Parts, Count;
    p' := Standing(p.u + 1, 0, 0, false, d', if f == None then p.us else p.us + [p.u]);
    if f == None {
      assert frames + ToSeq(f) == frames;
      ChronicleWaits(c, units, n0, frames, p.us, p.u, p.u + 1);
    } else {
      ChronicleGrows(c, units, n0, frames, p.us, p.u, f.value);
    }
  }

  /** The next packet in order arrives. */
  lemma ContinueStands(c: Codec, units: seq<Unit>, n0: int, d: Depack, frames: seq<Frame>, p: Standing,
                       d': Depack, f: Option<Frame>)
    returns (p': Standing)
    requires Sendable(c, units) && Stands(c, units, n0, d, frames, p) && p.u < |units|
    requires Step(c, d, PacketOf(c, units[p.u], p.j)) == (d', f)
    ensures Stands(c, units, n0, d', frames + ToSeq(f), p')
    ensures Reached(c, units, p') == Reached(c, units, p) + 1 && Adds(c, units, p.us, p'.us, Reached(c, units, p))
  {
    hide Step, Chronicle, Parts, FrameOf, Run, AtBoundary, Lost, Count, Legal;
    assert units[p.u] in units;
    CountSnoc(c, units, p.u);
    if p.lost {
      LostStep(c, d, PacketOf(c, units[p.u], p.j));
      assert frames + ToSeq(f) == frames;
      ChronicleWaits(c, units, n0, frames, p.us, p.u, p.u + 1);
      p' := if p.j + 1 < |Parts(c, units[p.u])| then p.(j := p.j + 1) else Standing(p.u + 1, 0, 0, false, d', p.us);
    } else {
      FollowOne(c, units[p.u], p.b, p.from, p.j, d, d', f);
      if p.j + 1 < |Parts(c, units[p.u])| {
        p' := p.(j := p.j + 1);
        assert frames + ToSeq(f) == frames;
      } else {
        p' := UnitEnds(c, units, n0, frames, p, d', f);
      }
    }
  }

  lemma CountSnoc(c: Codec, units: seq<Unit>, u: nat)
    requires u < |units|
    ensures Count(c, units[..u + 1]) == Count(c, units[..u]) + |Parts(c, units[u])|
  {
    assert units[..u + 1][..u] == units[..u];
  }

  /** One more packet of a unit that has been followed without loss. */
  lemma FollowOne(c: Codec, u: Unit, b: Depack, from: nat, j: nat, d: Depack, d': Depack, f: Option<Frame>)
    requires Nals(u.data) != [] && Legal(c, Nals(u.data)) && AtBoundary(b) && from <= j < |Parts(c, u)|
    requires if from == j then d == b else Run(c, b, EventsOf(c, u)[from..j]) == (d, [])
    requires Step(c, d, PacketOf(c, u, j)) == (d', f)
    ensures j + 1 < |Parts(c, u)| ==> f == None && Run(c, b, EventsOf(c, u)[from..j + 1]) == (d', [])
    ensures j + 1 == |Parts(c, u)| ==>
      && AtBoundary(d')
      && (if f == None then d'.awaitingKeyframe
          else !d'.awaitingKeyframe && if from == 0 then f.value == FrameOf(c, u) else Joined(c, u, from, f.value))
      && (f.Some? && from == 0 && b.awaitingKeyframe ==> HasIdr(c, Nals(u.data)))
      && (Fits(Nals(u.data)) && !b.awaitingKeyframe && Opens(c, u, from) ==> f.Some?)
  {
    hide *;
    FollowRun(c, u, b, from, j, d, d', f);
    var es := EventsOf(c, u);
    if j + 1 < |es| {
      PacketMarker(c, u, j);
      NoMarkerNoFrame(c, d, PacketOf(c, u, j));
      EmptyToSeq(f);
    } else {
      assert es[from..j + 1] == es[from..];
      UnitOutcome(c, u, b, from, (d', ToSeq(f)));
      EmptyToSeq(f);
    }
  }

  lemma EmptyToSeq<T>(o: Option<T>)
    ensures ToSeq(o) == [] <==> o == None
    ensures o.Some? ==> ToSeq(o) == [o.value]
  {
  }

  lemma PacketMarker(c: Codec, u: Unit, j: nat)
    requires j < |Parts(c, u)|
    ensures PacketOf(c, u, j).Packet? && (PacketOf(c, u, j).marker <==> j + 1 == |Parts(c, u)|)
  {
  }

  lemma FollowRun(c: Codec, u: Unit, b: Depack, from: nat, j: nat, d: Depack, d': Depack, f: Option<Frame>)
    requires from <= j < |Parts(c, u)|
    requires if from == j then d == b else Run(c, b, EventsOf(c, u)[from..j]) == (d, [])
    requires Step(c, d, PacketOf(c, u, j)) == (d', f)
    ensures Run(c, b, EventsOf(c, u)[from..j + 1]) == (d', ToSeq(f))
  {
    hide Step, Parts;
    var es := EventsOf(c, u);
    assert es[j] == PacketOf(c, u, j) by { MarkedAt(Parts(c, u), PtsOf(u), j); }
    assert Run(c, b, es[from..j]) == (d, []) by {
      if from == j { assert es[from..j] == []; }
    }
    assert es[from..j] + [es[j]] == es[from..j + 1];
    hide EventsOf, Run;
    RunOneMore(c, b, es[from..j], d, es[j]);
  }

  lemma NoMarkerNoFrame(c: Codec, d: Depack, e: Event)
    requires e.Packet? && !e.marker
    ensures Step(c, d, e).1 == None
  {
  }

  lemma RunOneMore(c: Codec, b: Depack, es: seq<Event>, d: Depack, e: Event)
    requires Run(c, b, es) == (d, [])
    ensures var (d', f) := Step(c, d, e); Run(c, b, es + [e]) == (d', ToSeq(f))
  {
    hide Step;
    RunConcat(c, b, es, [e]);
    var (d', f) := Step(c, d, e);
    assert Run(c, d', [e][1..]) == (d', []);
    assert ToSeq(f) + [] == ToSeq(f) && [] + ToSeq(f) == ToSeq(f);
  }

  lemma LostStep(c: Codec, d: Depack, e: Event)
    requires e.Packet? && Lost(d, e.ptsUsec)
    ensures var (d', f) := Step(c, d, e);
      f == None && if e.marker then AtBoundary(d') && d'.awaitingKeyframe else Lost(d', e.ptsUsec)
  {
  }

  lemma GapStep(c: Codec, d: Depack, e: Event)
    requires e.Packet?
    ensures var (d', f) := Step(c, Gapped(d), e);
      f == None && if e.marker then AtBoundary(d') && d'.awaitingKeyframe else Lost(d', e.ptsUsec)
  {
  }

  /** Places are skipped: the gap is announced, then place (u, j) arrives, and its unit is lost. */
  lemma SkipStands(c: Codec, units: seq<Unit>, n0: int, d: Depack, frames: seq<Frame>, p: Standing, u: nat, j: nat,
                   d': Depack, f: Option<Frame>)
    returns (p': Standing)
    requires Stands(c, units, n0, d, frames, p) && u < |units| && j < |Parts(c, units[u])|
    requires Reached(c, units, p) < Count(c, units[..u]) + j
    requires Step(c, Gapped(d), PacketOf(c, units[u], j)) == (d', f)
    ensures Stands(c, units, n0, d', frames + ToSeq(f), p')
    ensures Reached(c, units, p') == Count(c, units[..u]) + j + 1 && p'.us == p.us
  {
    hide Step, Chronicle, Parts, FrameOf, Run, AtBoundary, Lost;
    GapStep(c, d, PacketOf(c, units[u], j));
    assert frames + ToSeq(f) == frames;
    CountSnoc(c, units, u);
    if u < p.u {
      CountGrows(c, units, u, p.u);
    }
    ChronicleWaits(c, units, n0, frames, p.us, p.u, u);
    ChronicleWaits(c, units, n0, frames, p.us, p.u, u + 1);
    p' := if j + 1 == |Parts(c, units[u])| then Standing(u + 1, 0, 0, false, d', p.us)
          else Standing(u, j + 1, 0, true, d', p.us);
  }

  /** Reception begins at place (u, j). */
  lemma ShownFirst(c: Codec, units: seq<Unit>, n0: int, u: nat, j: nat, f: Option<Frame>)
    requires u < |units| && n0 == Count(c, units[..u]) + j
    requires f.Some? ==> if j == 0 then f.value == FrameOf(c, units[u]) else Joined(c, units[u], j, f.value)
    ensures f.Some? ==> Shown(c, units, n0, u, true, f.value)
    ensures j == 0 ==> !Inside(c, units, n0, u)
  {
    hide FrameOf, Joined, Count;
  }

  lemma FirstStands(c: Codec, units: seq<Unit>, u: nat, j: nat, b: Depack, d': Depack, f: Option<Frame>)
    returns (p': Standing)
    requires Sendable(c, units) && u < |units| && j < |Parts(c, units[u])| && AtBoundary(b)
    requires Step(c, b, PacketOf(c, units[u], j)) == (d', f)
    ensures var n0 := Count(c, units[..u]) + j;
      && Stands(c, units, n0, d', ToSeq(f), p') && Reached(c, units, p') == n0 + 1
      && Adds(c, units, [], p'.us, n0)
  {
    hide Step, Parts, FrameOf, Run, AtBoundary, Lost, Count, Legal, EventsOf, Chronicle, IdrAt, Shown, Joined, Inside;
    assert units[u] in units;
    CountSnoc(c, units, u);
    EmptyToSeq(f);
    var n0 := Count(c, units[..u]) + j;
    ChronicleStarts(c, units, n0, u);
    FollowOne(c, units[u], b, j, j, b, d', f);
    ShownFirst(c, units, n0, u, j, if j + 1 == |Parts(c, units[u])| then f else None);
    var p := Standing(u, j, j, false, b, []);
    if j + 1 < |Parts(c, units[u])| {
      p' := p.(j := j + 1);
      assert Stands(c, units, n0, d', [], p');
    } else {
      p' := UnitEnds(c, units, n0, [], p, d', f);
      assert [] + ToSeq(f) == ToSeq(f);
    }
  }

  lemma ChronicleStarts(c: Codec, units: seq<Unit>, n0: int, u: nat)
    requires u <= |units|
    ensures Chronicle(c, units, n0, [], [], u)
  {
  }

  // ------------------------------------------------------------------ the receive loop on such a stream

  ghost predicate Wired(c: Codec, st: Stream, units: seq<Unit>, s0: int, packets: seq<Packet>) {
    && 0 <= st.ssrc < TWO32 && st.payloadType == VIDEO_PAYLOAD_TYPE && 0 <= s0 < TWO16
    && packets == Sent(c, st.ssrc, units, s0)
    && Sendable(c, units)
  }

  ghost predicate HeldOk(st: Stream, packets: seq<Packet>, heard: set<int>, off: int, jitter: map<int, Held>) {
    forall k :: k in jitter ==>
      off <= k < off + |packets| && k - off in heard && jitter[k].video == VideoOf(st, packets, k - off)
  }

  /** The last packet of each of these units is among the places heard. */
  ghost predicate AllHeard(c: Codec, units: seq<Unit>, us: seq<nat>, heard: set<int>) {
    forall u :: u in us ==> u < |units| && Count(c, units[..u + 1]) - 1 in heard
  }

  lemma HeardMore(c: Codec, units: seq<Unit>, us: seq<nat>, us': seq<nat>, n: int, heard: set<int>)
    requires AllHeard(c, units, us, heard) && Adds(c, units, us, us', n) && n in heard
    ensures AllHeard(c, units, us', heard)
  {
    hide Count;
  }

  /**
   The loop's state, reception having begun at place n0 and no place having arrived but those in
   `heard`, and where that leaves the stream.
   */
  ghost predicate Tracks(c: Codec, st: Stream, units: seq<Unit>, packets: seq<Packet>, heard: set<int>, n0: int,
                         off: int, s: Recv, p: Standing)
  {
    && LoopInv(s, 0) && s.next >= 0
    && HeldOk(st, packets, heard, off, s.jitter)
    && Stands(c, units, n0, s.depack, s.frames, p) && AllHeard(c, units, p.us, heard)
    && s.next == Reached(c, units, p) + off
  }

  lemma AtUnique(c: Codec, units: seq<Unit>, n: int, u: nat, j: nat, p: Standing)
    requires At(c, units, n, u, j) && p.u <= |units| && Reached(c, units, p) == n < Count(c, units)
    requires p.j > 0 ==> p.u < |units| && p.j < |Parts(c, units[p.u])|
    requires Sendable(c, units)
    ensures p.u == u && p.j == j
  {
    hide Parts;
    assert units[..|units|] == units;
    if p.u < |units| {
      assert units[p.u] in units;
    }
    if u < p.u {
      CountGrows(c, units, u, p.u);
    } else if p.u < u {
      CountGrows(c, units, p.u, u);
    }
  }

  lemma StandsPlace(c: Codec, units: seq<Unit>, n0: int, d: Depack, frames: seq<Frame>, p: Standing)
    requires Stands(c, units, n0, d, frames, p)
    ensures p.u <= |units| && (p.j > 0 ==> p.u < |units| && p.j < |Parts(c, units[p.u])|)
  {
  }

  /** A packet at or past the playout point is handed over, after a gap if it is past it. */
  lemma DeliverTracks(c: Codec, st: Stream, units: seq<Unit>, s0: int, packets: seq<Packet>, heard: set<int>,
                      n0: int, off: int, s: Recv, told: Recv, p: Standing, n: nat)
    returns (p': Standing)
    requires Wired(c, st, units, s0, packets) && n < |packets| && Reached(c, units, p) <= n
    requires Stands(c, units, n0, s.depack, s.frames, p) && AllHeard(c, units, p.us, heard) && n in heard
    requires told.frames == s.frames
    requires told.depack == if n == Reached(c, units, p) then s.depack else Gapped(s.depack)
    ensures var s1 := Delivered(c, told, n + off, VideoOf(st, packets, n));
      && Stands(c, units, n0, s1.depack, s1.frames, p') && s1.next == Reached(c, units, p') + off
      && s1.jitter == told.jitter && s1.next == n + off + 1 && AllHeard(c, units, p'.us, heard)
  {
    hide Step, VideoOf, Stands, Sent, EventOf, Gapped, Parts, Count, Reached, PacketOf, AllHeard, Adds;
    var u, j := Locate(c, units, n);
    EventAt(c, st, units, s0, n, u, j);
    var (d', f) := Step(c, told.depack, EventOf(VideoOf(st, packets, n)));
    if n == Reached(c, units, p) {
      StandsPlace(c, units, n0, s.depack, s.frames, p);
      AtUnique(c, units, n, u, j, p);
      p' := ContinueStands(c, units, n0, s.depack, s.frames, p, d', f);
      HeardMore(c, units, p.us, p'.us, n, heard);
    } else {
      p' := SkipStands(c, units, n0, s.depack, s.frames, p, u, j, d', f);
    }
  }

  lemma PopTracks(c: Codec, st: Stream, units: seq<Unit>, s0: int, packets: seq<Packet>, heard: set<int>, n0: int,
                  off: int, s: Recv, p: Standing)
    returns (p': Standing)
    requires Wired(c, st, units, s0, packets) && s.jitter != map[]
    requires Tracks(c, st, units, packets, heard, n0, off, s, p)
    ensures Tracks(c, st, units, packets, heard, n0, off, Popped(c, s, Head(s.jitter)), p')
  {
    hide Step, VideoOf, Stands, Sent, Gapped, Reached, Wired, Delivered, Orderly;
    var k := Head(s.jitter);
    PopKeeps(c, s);
    var rest := s.(jitter := s.jitter - {k});
    var told := if k != s.next then rest.(depack := Gapped(s.depack), trace := s.trace + [Skipped]) else rest;
    p' := DeliverTracks(c, st, units, s0, packets, heard, n0, off, s, told, p, k - off);
    assert Popped(c, s, k) == Delivered(c, told, k, VideoOf(st, packets, k - off));
  }

  lemma {:induction false} DrainTracks(c: Codec, st: Stream, units: seq<Unit>, s0: int, packets: seq<Packet>,
                                       heard: set<int>, n0: int, off: int, s: Recv, p: Standing,
                                       clock: int -> int, i: int)
    returns (p': Standing)
    requires Wired(c, st, units, s0, packets) && Tracks(c, st, units, packets, heard, n0, off, s, p)
    ensures Tracks(c, st, units, packets, heard, n0, off, Drained(c, s, clock, i), p')
    ensures Drained(c, s, clock, i).highest == s.highest
    decreases |s.jitter|
  {
    hide Wired, Tracks, Popped, Due;
    p' := p;
    if s.jitter != map[] && Due(s, Head(s.jitter), clock(i)) {
      var k := Head(s.jitter);
      PopShrinks(c, s, k);
      PopHighest(c, s, k);
      var p1 := PopTracks(c, st, units, s0, packets, heard, n0, off, s, p);
      p' := DrainTracks(c, st, units, s0, packets, heard, n0, off, Popped(c, s, k), p1, clock, i + 1);
    }
  }

  lemma PopHighest(c: Codec, s: Recv, k: int)
    requires k in s.jitter
    ensures Popped(c, s, k).highest == s.highest
  {
    hide Step;
  }

  lemma PlaceTracks(c: Codec, st: Stream, units: seq<Unit>, s0: int, packets: seq<Packet>, heard: set<int>, n0: int,
                    off: int, s: Recv, p: Standing, n: nat, now: int)
    returns (p': Standing)
    requires Wired(c, st, units, s0, packets) && n < |packets| && n in heard
    requires Tracks(c, st, units, packets, heard, n0, off, s, p) && LoopInv(s, 1)
    ensures Tracks(c, st, units, packets, heard, n0, off, Placed(c, s, n + off, VideoOf(st, packets, n), now), p')
  {
    hide Step, VideoOf, Stands, Sent, Reached, Wired, Delivered, HeldOk, LoopInv, AllHeard;
    HeldMore(st, packets, heard, off, s.jitter, n, now);
    PlaceKeeps(c, s, n + off, VideoOf(st, packets, n), now);
    p' := p;
    if n + off == s.next {
      var told := s.(highest := if n + off > s.highest then n + off else s.highest);
      p' := DeliverTracks(c, st, units, s0, packets, heard, n0, off, s, told, p, n);
    }
  }

  lemma HeldMore(st: Stream, packets: seq<Packet>, heard: set<int>, off: int, jitter: map<int, Held>, n: nat, now: int)
    requires HeldOk(st, packets, heard, off, jitter) && n < |packets| && n in heard
    ensures HeldOk(st, packets, heard, off, jitter[n + off := Held(VideoOf(st, packets, n), now)])
  {
    hide VideoOf;
  }

  lemma PlacedHighest(c: Codec, s: Recv, ext: int, v: Video, now: int)
    ensures Placed(c, s, ext, v, now).highest == if ext > s.highest then ext else s.highest
  {
    hide Step;
  }

  // ------------------------------------------------------------------ whole runs

  ghost function FirstPlace(legs: seq<Leg>): Option<nat> {
    if legs == [] then None else if legs[0].n.Some? then legs[0].n else FirstPlace(legs[1..])
  }

  lemma TracksLoop(c: Codec, st: Stream, units: seq<Unit>, packets: seq<Packet>, heard: set<int>, n0: int, off: int,
                   s: Recv, p: Standing)
    requires Tracks(c, st, units, packets, heard, n0, off, s, p)
    ensures LoopInv(s, 0)
  {
  }

  lemma LegSplits(c: Codec, st: Stream, packets: seq<Packet>, s: Recv, leg: Leg)
    requires leg.n.Some? ==> leg.n.value < |packets|
    ensures LegDone(c, st, packets, s, leg) ==
      var s1 := Drained(c, s, leg.clock, 0);
      if leg.n.Some? then Received(c, st, s1, packets[leg.n.value], leg.now) else s1
  {
    hide Drained, Received;
  }

  lemma LegTracks(c: Codec, st: Stream, units: seq<Unit>, s0: int, packets: seq<Packet>, heard: set<int>, n0: nat,
                  s: Recv, h: int, leg: Leg, p: Standing)
    returns (p': Standing)
    requires Wired(c, st, units, s0, packets) && Numbered(st, packets, s0) && n0 <= h
    requires leg.n.Some? ==> leg.n.value < |packets| && -0x8000 <= leg.n.value - h < 0x8000 && leg.n.value in heard
    requires Tracks(c, st, units, packets, heard, n0, Offset(s0, n0), s, p) && s.highest == h + Offset(s0, n0)
    ensures var s1 := LegDone(c, st, packets, s, leg);
      Tracks(c, st, units, packets, heard, n0, Offset(s0, n0), s1, p') && s1.highest == Top(h, leg) + Offset(s0, n0)
  {
    hide LegDone, Numbered, Wired, Tracks, Placed, Drained, Received, LoopInv, VideoOf, Stands, HeldOk;
    var off := Offset(s0, n0);
    assert off + n0 >= 0;
    hide Offset;
    var s1 := Drained(c, s, leg.clock, 0);
    TracksLoop(c, st, units, packets, heard, n0, off, s, p);
    p' := DrainTracks(c, st, units, s0, packets, heard, n0, off, s, p, leg.clock, 0);
    DrainKeeps(c, s, leg.clock, 0);
    LegSplits(c, st, packets, s, leg);
    if leg.n.Some? {
      ArrivalIsPlaced(c, st, packets, s0, n0, s1, h, leg.n.value, leg.now);
      PlacedHighest(c, s1, leg.n.value + off, VideoOf(st, packets, leg.n.value), leg.now);
      p' := PlaceTracks(c, st, units, s0, packets, heard, n0, off, s1, p', leg.n.value, leg.now);
    }
  }

  /** No leg brings another place. */
  ghost predicate Within(legs: seq<Leg>, heard: set<int>) {
    forall leg :: leg in legs && leg.n.Some? ==> leg.n.value in heard
  }

  lemma {:induction false} RunTracks(c: Codec, st: Stream, units: seq<Unit>, s0: int, packets: seq<Packet>,
                                     heard: set<int>, n0: nat, s: Recv, h: int, legs: seq<Leg>, p: Standing)
    returns (p': Standing)
    requires Wired(c, st, units, s0, packets) && Numbered(st, packets, s0) && InWindow(packets, h, legs) && n0 <= h
    requires Within(legs, heard)
    requires Tracks(c, st, units, packets, heard, n0, Offset(s0, n0), s, p) && s.highest == h + Offset(s0, n0)
    ensures Tracks(c, st, units, packets, heard, n0, Offset(s0, n0), Driven(c, st, packets, s, legs), p')
    decreases |legs|
  {
    hide LegDone, Numbered, Wired, Tracks, Offset;
    p' := p;
    if legs != [] {
      p' := LegTracks(c, st, units, s0, packets, heard, n0, s, h, legs[0], p);
      var s' := LegDone(c, st, packets, s, legs[0]);
      p' := RunTracks(c, st, units, s0, packets, heard, n0, s', Top(h, legs[0]), legs[1..], p');
    }
  }

  lemma FirstLoopInv(c: Codec, s: Recv, ext: int, v: Video)
    requires s == START.(highest := ext) && ext >= 0
    ensures LoopInv(Delivered(c, s, ext, v), 0)
    ensures Delivered(c, s, ext, v).jitter == map[] && Delivered(c, s, ext, v).next == ext + 1
    ensures Delivered(c, s, ext, v).highest == ext
  {
    hide Step;
    PlaceKeeps(c, START, ext, v, 0);
  }

  lemma FirstNumber(s0: int, n0: int)
    ensures 0 <= n0 + Offset(s0, n0) < TWO16
  {
  }

  /** The state after the first arrival. */
  lemma FirstState(c: Codec, st: Stream, packets: seq<Packet>, s0: int, leg: Leg)
    requires Numbered(st, packets, s0) && leg.n.Some? && leg.n.value < |packets|
    ensures var n0 := leg.n.value;
      var s := LegDone(c, st, packets, START, leg);
      var (d, f) := Step(c, FRESH, EventOf(VideoOf(st, packets, n0)));
      && LoopInv(s, 0) && s.jitter == map[] && s.highest == n0 + Offset(s0, n0) && s.next == s.highest + 1
      && s.depack == d && s.frames == ToSeq(f)
  {
    hide Step, VideoOf, Numbered, EventOf, LoopInv, Received, Offset;
    var n0 := leg.n.value;
    var ext := n0 + Offset(s0, n0);
    FirstArrivalIsPlaced(c, st, packets, s0, n0, leg.now);
    FirstNumber(s0, n0);
    FirstLoopInv(c, START.(highest := ext), ext, VideoOf(st, packets, n0));
    var (d, f) := Step(c, FRESH, EventOf(VideoOf(st, packets, n0)));
    assert [] + ToSeq(f) == ToSeq(f);
  }

  /** Where it leaves the stream. */
  lemma FirstStanding(c: Codec, st: Stream, units: seq<Unit>, s0: int, packets: seq<Packet>, n0: nat)
    returns (p': Standing)
    requires Wired(c, st, units, s0, packets) && n0 < |packets|
    ensures var (d, f) := Step(c, FRESH, EventOf(VideoOf(st, packets, n0)));
      && Stands(c, units, n0, d, ToSeq(f), p') && Reached(c, units, p') == n0 + 1
      && Adds(c, units, [], p'.us, n0)
  {
    hide Step, VideoOf, Sent, EventOf, Stands, PacketOf, Parts, Count, Reached;
    var u, j := Locate(c, units, n0);
    EventAt(c, st, units, s0, n0, u, j);
    var (d', f) := Step(c, FRESH, EventOf(VideoOf(st, packets, n0)));
    p' := FirstStands(c, units, u, j, FRESH, d', f);
  }

  lemma FirstTracks(c: Codec, st: Stream, units: seq<Unit>, s0: int, packets: seq<Packet>, heard: set<int>, leg: Leg)
    returns (p': Standing)
    requires Wired(c, st, units, s0, packets) && Numbered(st, packets, s0)
    requires leg.n.Some? && leg.n.value < |packets| && leg.n.value in heard
    ensures var n0 := leg.n.value;
      var s := LegDone(c, st, packets, START, leg);
      && Tracks(c, st, units, packets, heard, n0, Offset(s0, n0), s, p')
      && s.highest == n0 + Offset(s0, n0)
  {
    hide Step, VideoOf, Numbered, Sent, EventOf, Stands, LoopInv, Offset, Wired, LegDone, Reached, Adds;
    FirstState(c, st, packets, s0, leg);
    p' := FirstStanding(c, st, units, s0, packets, leg.n.value);
    HeardMore(c, units, [], p'.us, leg.n.value, heard);
    FirstNumber(s0, leg.n.value);
  }

  lemma {:induction false} WholeRun(c: Codec, st: Stream, units: seq<Unit>, s0: int, packets: seq<Packet>,
                                    heard: set<int>, legs: seq<Leg>)
    returns (p: Standing)
    requires Wired(c, st, units, s0, packets) && Numbered(st, packets, s0) && InWindow(packets, -1, legs)
    requires Within(legs, heard)
    ensures var s := Driven(c, st, packets, START, legs);
      match FirstPlace(legs)
      case None => s == START
      case Some(n0) => Tracks(c, st, units, packets, heard, n0, Offset(s0, n0), s, p)
    decreases |legs|
  {
    p := Standing(0, 0, 0, false, FRESH, []);
    if legs != [] {
      hide Wired, Numbered, Tracks, Offset;
      var leg := legs[0];
      if leg.n.None? {
        assert LegDone(c, st, packets, START, leg) == START;
        p := WholeRun(c, st, units, s0, packets, heard, legs[1..]);
      } else {
        p := FirstTracks(c, st, units, s0, packets, heard, leg);
        hide LegDone;
        p := RunTracks(c, st, units, s0, packets, heard, leg.n.value, LegDone(c, st, packets, START, leg), leg.n.value,
                       legs[1..], p);
      }
    }
  }

  /** Place n is among the arrivals. */
  ghost predicate Arrives(legs: seq<Leg>, n: int) {
    exists leg :: leg in legs && leg.n.Some? && leg.n.value == n
  }

  ghost function Heard(legs: seq<Leg>): set<int> {
    set leg | leg in legs && leg.n.Some? :: leg.n.value as int
  }

  lemma TracksShows(c: Codec, st: Stream, units: seq<Unit>, packets: seq<Packet>, heard: set<int>, n0: int, off: int,
                    s: Recv, p: Standing)
    requires Tracks(c, st, units, packets, heard, n0, off, s, p)
    ensures Chronicle(c, units, n0, s.frames, p.us, |units|) && AllHeard(c, units, p.us, heard)
  {
    hide Chronicle, AllHeard, HeldOk, LoopInv, Count;
    ChronicleWaits(c, units, n0, s.frames, p.us, p.u, |units|);
  }

  lemma HeardArrive(c: Codec, units: seq<Unit>, us: seq<nat>, legs: seq<Leg>)
    requires AllHeard(c, units, us, Heard(legs))
    ensures forall i :: 0 <= i < |us| ==> us[i] < |units| && Arrives(legs, Count(c, units[..us[i] + 1]) - 1)
  {
    hide Count;
    forall i | 0 <= i < |us|
      ensures us[i] < |units| && Arrives(legs, Count(c, units[..us[i] + 1]) - 1)
    {
      assert us[i] in us;
    }
  }

  lemma WholeChronicle(c: Codec, st: Stream, units: seq<Unit>, s0: int, packets: seq<Packet>, legs: seq<Leg>)
    returns (us: seq<nat>)
    requires Wired(c, st, units, s0, packets) && InWindow(packets, -1, legs) && FirstPlace(legs).Some?
    ensures Chronicle(c, units, FirstPlace(legs).value, Driven(c, st, packets, START, legs).frames, us, |units|)
    ensures AllHeard(c, units, us, Heard(legs))
  {
    SentNumbered(c, st, units, s0);
    assert Within(legs, Heard(legs));
    hide Driven, InWindow, FirstPlace, Chronicle, Tracks, Sent, Numbered, Heard, AllHeard, Within, Offset;
    var p := WholeRun(c, st, units, s0, packets, Heard(legs), legs);
    us := p.us;
    var n0 := FirstPlace(legs).value;
    TracksShows(c, st, units, packets, Heard(legs), n0, Offset(s0, n0), Driven(c, st, packets, START, legs), p);
  }

  /**
   Whatever the network drops, repeats or reorders within the window: the frames handed to the decoder
   are sent units, in sent order, none twice; each but the first is an IDR unit or directly follows the
   one before it; and each is byte for byte the unit sent, if and only if it is not the first one with
   reception having begun inside it. That one is the unit from the NAL unit on with which reception began.
   No unit comes out whose last packet has not arrived, and each with the time it was captured at.
   */
  lemma FramesAreSentUnits(c: Codec, st: Stream, units: seq<Unit>, s0: int, packets: seq<Packet>, legs: seq<Leg>)
    returns (us: seq<nat>)
    requires Wired(c, st, units, s0, packets) && InWindow(packets, -1, legs) && FirstPlace(legs).Some?
    ensures var frames := Driven(c, st, packets, START, legs).frames;
      var n0 := FirstPlace(legs).value;
      && |us| == |frames|
      && (forall i :: 0 <= i < |us| ==> us[i] < |units| && n0 < Count(c, units[..us[i] + 1]))
      && Chained(c, units, us)
      && (forall i :: 0 <= i < |us| ==> Arrives(legs, Count(c, units[..us[i] + 1]) - 1))
      && (forall i :: 0 <= i < |us| ==>
        (frames[i] == FrameOf(c, units[us[i]]) <==> !(i == 0 && Inside(c, units, n0, us[i]))))
      && (forall i :: 0 <= i < |us| ==> Timely(units[us[i]], frames[i]))
      && (us != [] && Inside(c, units, n0, us[0]) ==>
        Joined(c, units[us[0]], n0 - Count(c, units[..us[0]]), frames[0]))
  {
    hide Driven, InWindow, FirstPlace, FrameOf, Joined, Inside, IdrAt, Count, Wired, Arrives, AllHeard, Heard;
    us := WholeChronicle(c, st, units, s0, packets, legs);
    HeardArrive(c, units, us, legs);
    var n0 := FirstPlace(legs).value;
    var frames := Driven(c, st, packets, START, legs).frames;
    hide Timely, Shown;
    forall i | 0 <= i < |us| ensures Timely(units[us[i]], frames[i]) {
      ShownTimely(c, units, n0, us[i], i == 0, frames[i]);
    }
    if us != [] && Inside(c, units, n0, us[0]) {
      JoinedIsNotWhole(c, units[us[0]], n0 - Count(c, units[..us[0]]), Driven(c, st, packets, START, legs).frames[0]);
    }
  }

  /** Reception having begun at packet j of unit v: a later unit, whole; or v, first, as far as it was joined. */
  ghost predicate Since(c: Codec, units: seq<Unit>, v: nat, j: int, u: nat, first: bool, f: Frame) {
    v <= u < |units| && if u == v then first && Joined(c, units[v], j, f) else f == FrameOf(c, units[u])
  }

  lemma InsideExactly(c: Codec, units: seq<Unit>, v: nat, j: int, u: nat)
    requires v < |units| && 0 < j < |Parts(c, units[v])| && u < |units|
    requires Count(c, units[..v]) + j < Count(c, units[..u + 1])
    ensures v <= u && (Inside(c, units, Count(c, units[..v]) + j, u) <==> u == v)
  {
    hide Count, Parts;
    CountSnoc(c, units, v);
    if u < v {
      CountGrows(c, units, u + 1, v);
    } else if u > v {
      CountGrows(c, units, v + 1, u);
    }
  }

  lemma ChainedRises(c: Codec, units: seq<Unit>, us: seq<nat>, i: nat)
    requires Chained(c, units, us) && 0 < i < |us|
    ensures us[i - 1] < us[i]
  {
    hide IdrAt;
  }

  lemma FrameSince(c: Codec, units: seq<Unit>, v: nat, j: int, u: nat, first: bool, f: Frame)
    requires v <= u < |units|
    requires u == v ==> first && Joined(c, units[v], j, f)
    requires u > v ==> f == FrameOf(c, units[u])
    ensures Since(c, units, v, j, u, first, f)
  {
    hide Joined, FrameOf;
  }

  lemma SinceLater(c: Codec, units: seq<Unit>, v: nat, j: int, u: nat, first: bool, f: Frame)
    requires v < |units| && Since(c, units, v, j, u, first, f)
    requires forall k: nat :: !NalStart(c, Nals(units[v].data), j, k)
    ensures u > v
  {
    hide NalStart, Nals, RestOf, FrameOf;
  }

  /**
   Joined at a later packet of unit v: every frame is exactly a later unit, unless the first one is v.
   That takes a NAL unit of v to begin with the packet, and then the frame is v from that one on; if
   none begins there, every frame is exact.
   */
  lemma JoinedInsideIsASuffix(c: Codec, st: Stream, units: seq<Unit>, s0: int, packets: seq<Packet>, legs: seq<Leg>,
                              v: nat, j: nat)
    returns (us: seq<nat>)
    requires Wired(c, st, units, s0, packets) && InWindow(packets, -1, legs)
    requires v < |units| && 0 < j < |Parts(c, units[v])| && FirstPlace(legs) == Some(Count(c, units[..v]) + j)
    ensures var frames := Driven(c, st, packets, START, legs).frames;
      && |us| == |frames|
      && Chained(c, units, us)
      && (forall i :: 0 <= i < |us| ==> Since(c, units, v, j, us[i], i == 0, frames[i]))
      && ((forall k: nat :: !NalStart(c, Nals(units[v].data), j, k)) ==> forall i :: 0 <= i < |us| ==> us[i] > v)
  {
    hide Driven, InWindow, FirstPlace, FrameOf, IdrAt, Count, Wired, Arrives, NalStart, Parts, Timely, Joined, Inside,
      Since, Chained, Nals;
    us := FramesAreSentUnits(c, st, units, s0, packets, legs);
    var frames := Driven(c, st, packets, START, legs).frames;
    forall i | 0 <= i < |us| ensures Since(c, units, v, j, us[i], i == 0, frames[i]) {
      InsideExactly(c, units, v, j, us[i]);
      if i > 0 {
        InsideExactly(c, units, v, j, us[i - 1]);
        ChainedRises(c, units, us, i);
      }
      FrameSince(c, units, v, j, us[i], i == 0, frames[i]);
    }
    if forall k: nat :: !NalStart(c, Nals(units[v].data), j, k) {
      forall i | 0 <= i < |us| ensures us[i] > v {
        SinceLater(c, units, v, j, us[i], i == 0, frames[i]);
      }
    }
  }

  /** Joined at the start of a unit, every frame is exactly a sent one. */
  lemma CleanStartIsExact(c: Codec, st: Stream, units: seq<Unit>, s0: int, packets: seq<Packet>, legs: seq<Leg>, v: nat)
    returns (us: seq<nat>)
    requires Wired(c, st, units, s0, packets) && InWindow(packets, -1, legs)
    requires v < |units| && FirstPlace(legs) == Some(Count(c, units[..v]))
    ensures var frames := Driven(c, st, packets, START, legs).frames;
      && |us| == |frames|
      && (forall i :: 0 <= i < |us| ==> v <= us[i] < |units| && frames[i] == FrameOf(c, units[us[i]]))
      && Chained(c, units, us)
  {
    hide Driven, InWindow, FirstPlace, FrameOf, IdrAt, Count, Wired, Arrives, AllHeard, Heard;
    us := FramesAreSentUnits(c, st, units, s0, packets, legs);
    forall i | 0 <= i < |us|
      ensures v <= us[i] && !Inside(c, units, Count(c, units[..v]), us[i])
    {
      if us[i] < v {
        CountGrows(c, units, us[i] + 1, v);
      } else {
        CountGrows(c, units, v, us[i]);
      }
    }
  }
}
