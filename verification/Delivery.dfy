/**
 Nothing lost, merely reordered: every access unit whose packets have arrived up to its last is
 handed to the decoder, in order, exactly as sent.
 */
module Delivery {
  import opened Bytes
  import opened AnnexB
  import opened Rtp
  import opened Packetizer
  import opened Depacketizer
  import opened RoundTrip
  import opened Receiver
  import opened Channel
  import opened EndToEnd

  ghost function FramesOf(c: Codec, units: seq<Unit>, v: nat, w: nat): seq<Frame>
    requires w <= |units|
  {
    if w <= v then [] else FramesOf(c, units, v, w - 1) + [FrameOf(c, units[w - 1])]
  }

  ghost predicate AllFit(units: seq<Unit>) {
    forall u :: u in units ==> Fits(Nals(u.data))
  }

  /** j packets of unit w have been fed, after the whole of units v up to w - 1, nothing awaited. */
  ghost predicate Steady(c: Codec, units: seq<Unit>, v: nat, w: nat, j: nat, b: Depack, r: (Depack, seq<Frame>)) {
    && w <= |units|
    && AtBoundary(b) && !b.awaitingKeyframe
    && (if j == 0 then r.0 == b
        else w < |units| && j < |Parts(c, units[w])| && Run(c, b, EventsOf(c, units[w])[0..j]) == (r.0, []))
    && r.1 == FramesOf(c, units, v, w)
  }

  lemma SteadyStep(c: Codec, units: seq<Unit>, v: nat, w: nat, j: nat, b: Depack, r: (Depack, seq<Frame>),
                   d': Depack, f: Option<Frame>)
    returns (b': Depack)
    requires Sendable(c, units) && AllFit(units) && v <= w < |units| && j < |Parts(c, units[w])|
    requires Steady(c, units, v, w, j, b, r) && Step(c, r.0, PacketOf(c, units[w], j)) == (d', f)
    ensures if j + 1 < |Parts(c, units[w])| then Steady(c, units, v, w, j + 1, b', (d', r.1 + ToSeq(f)))
            else Steady(c, units, v, w + 1, 0, b', (d', r.1 + ToSeq(f)))
  {
    hide Step, Parts, AtBoundary, Fits, Legal, FrameOf, Run, EventsOf;
    assert units[w] in units;
    FollowOne(c, units[w], b, 0, j, r.0, d', f);
    EmptyToSeq(f);
    if j + 1 < |Parts(c, units[w])| {
      b' := b;
      assert r.1 + ToSeq(f) == r.1;
    } else {
      b' := d';
    }
  }

  /** Between units, with nothing awaited. */
  ghost predicate Idle(d: Depack) {
    AtBoundary(d) && !d.awaitingKeyframe
  }

  lemma FreshIsIdle()
    ensures Idle(FRESH)
  {
  }

  /** What becomes of d0 when the packets at places a up to b are fed in order. */
  ghost function Played(c: Codec, st: Stream, packets: seq<Packet>, off: int, d0: Depack, a: int, b: int)
    : (Depack, seq<Frame>)
  {
    Run(c, d0, InOrder(st, packets, off, a + off, b + off))
  }

  lemma SteadyStarts(c: Codec, st: Stream, units: seq<Unit>, packets: seq<Packet>, off: int, d0: Depack, v: nat)
    returns (b: Depack)
    requires v <= |units| && Idle(d0)
    ensures var first := Count(c, units[..v]);
      Steady(c, units, v, v, 0, b, Played(c, st, packets, off, d0, first, first))
  {
    hide Count;
    b := d0;
  }

  lemma InOrderSnoc(c: Codec, st: Stream, packets: seq<Packet>, off: int, d0: Depack, a: int, k: int, e: Event)
    requires a <= k && e == EventOf(VideoOf(st, packets, k - off))
    ensures var r := Run(c, d0, InOrder(st, packets, off, a, k));
      var (d, f) := Step(c, r.0, e);
      Run(c, d0, InOrder(st, packets, off, a, k + 1)) == (d, r.1 + ToSeq(f))
  {
    hide Step, VideoOf, EventOf;
    var es := InOrder(st, packets, off, a, k);
    RunConcat(c, d0, es, [e]);
    var r := Run(c, d0, es);
    var (d, f) := Step(c, r.0, e);
    assert Run(c, d, [e][1..]) == (d, []);
    assert ToSeq(f) + [] == ToSeq(f);
  }

  lemma PlayedSnoc(c: Codec, st: Stream, packets: seq<Packet>, off: int, d0: Depack, a: int, k: int, e: Event)
    requires a <= k && e == EventOf(VideoOf(st, packets, k))
    ensures var r := Played(c, st, packets, off, d0, a, k);
      var (d, f) := Step(c, r.0, e);
      Played(c, st, packets, off, d0, a, k + 1) == (d, r.1 + ToSeq(f))
  {
    hide Step, Run, InOrder, VideoOf, EventOf;
    assert k + 1 + off == k + off + 1 && k + off - off == k;
    InOrderSnoc(c, st, packets, off, d0, a + off, k + off, e);
  }

  lemma SteadyMore(c: Codec, st: Stream, units: seq<Unit>, s0: int, packets: seq<Packet>, off: int,
                   d0: Depack, v: nat, w: nat, j: nat, b: Depack)
    returns (b': Depack)
    requires Wired(c, st, units, s0, packets) && AllFit(units)
    requires v <= w < |units| && j < |Parts(c, units[w])|
    requires var a, k := Count(c, units[..v]), Count(c, units[..w]) + j;
      Steady(c, units, v, w, j, b, Played(c, st, packets, off, d0, a, k))
    ensures var r' := Played(c, st, packets, off, d0, Count(c, units[..v]), Count(c, units[..w]) + j + 1);
      if j + 1 < |Parts(c, units[w])| then Steady(c, units, v, w, j + 1, b', r')
      else Steady(c, units, v, w + 1, 0, b', r')
  {
    hide Step, Run, Played, VideoOf, EventOf, PacketOf, Parts, Steady, Count, AllFit, Sent;
    var a, n := Count(c, units[..v]), Count(c, units[..w]) + j;
    CountGrows(c, units, v, w);
    EventAt(c, st, units, s0, n, w, j);
    var e, r := PacketOf(c, units[w], j), Played(c, st, packets, off, d0, a, n);
    PlayedSnoc(c, st, packets, off, d0, a, n, e);
    b' := SteadyStep(c, units, v, w, j, b, r, Step(c, r.0, e).0, Step(c, r.0, e).1);
  }

  lemma {:induction false} InOrderSteady(c: Codec, st: Stream, units: seq<Unit>, s0: int, packets: seq<Packet>,
                                         off: int, d0: Depack, v: nat, w: nat, j: nat)
    returns (b: Depack)
    requires Wired(c, st, units, s0, packets) && AllFit(units) && v <= w <= |units| && Idle(d0)
    requires j > 0 ==> w < |units| && j < |Parts(c, units[w])|
    ensures Steady(c, units, v, w, j, b,
                   Played(c, st, packets, off, d0, Count(c, units[..v]), Count(c, units[..w]) + j))
    decreases w, j
  {
    hide Played, Parts, Steady, Count, AllFit, Sent, Wired;
    if w == v && j == 0 {
      b := SteadyStarts(c, st, units, packets, off, d0, v);
    } else if j > 0 {
      b := InOrderSteady(c, st, units, s0, packets, off, d0, v, w, j - 1);
      b := SteadyMore(c, st, units, s0, packets, off, d0, v, w, j - 1, b);
    } else {
      var last := LastPart(c, st, units, s0, packets, w - 1);
      b := InOrderSteady(c, st, units, s0, packets, off, d0, v, w - 1, last);
      b := SteadyMore(c, st, units, s0, packets, off, d0, v, w - 1, last, b);
    }
  }

  lemma LastPart(c: Codec, st: Stream, units: seq<Unit>, s0: int, packets: seq<Packet>, u: nat) returns (last: nat)
    requires Wired(c, st, units, s0, packets) && u < |units|
    ensures |Parts(c, units[u])| == last + 1 && Count(c, units[..u + 1]) == Count(c, units[..u]) + last + 1
  {
    hide Count, Parts, Sent;
    assert units[u] in units;
    last := |Parts(c, units[u])| - 1;
    CountSnoc(c, units, u);
  }

  /**
   Reception begins at the start of unit v, nothing expires, nothing overflows: once the least place
   that has not arrived is packet j of unit w (or the end), the decoder has been given exactly the
   units v up to w - 1.
   */
  lemma ArrivedIsDelivered(c: Codec, st: Stream, units: seq<Unit>, s0: int, packets: seq<Packet>, legs: seq<Leg>,
                           clock: int -> int, v: nat, w: nat, j: nat)
    requires Wired(c, st, units, s0, packets) && AllFit(units) && InWindow(packets, -1, legs)
    requires legs != [] && CalmRun(c, st, packets, START, legs)
    requires Calm(c, Driven(c, st, packets, START, legs), clock, 0)
    requires v <= w <= |units| && legs[0].n == Some(Count(c, units[..v]))
    requires j > 0 ==> w < |units| && j < |Parts(c, units[w])|
    requires Drained(c, Driven(c, st, packets, START, legs), clock, 0).next ==
      Count(c, units[..w]) + j + Offset(s0, legs[0].n.value)
    ensures Drained(c, Driven(c, st, packets, START, legs), clock, 0).frames == FramesOf(c, units, v, w)
  {
    hide Wired, Driven, Drained, CalmRun, Calm, Count, Run, FramesOf, InWindow, EventsOf, Parts, Idle, Sent,
      Arrived, Handovers, InOrder, Offset, AllFit, Numbered;
    FreshIsIdle();
    assert 0 <= st.ssrc < TWO32 && st.payloadType == VIDEO_PAYLOAD_TYPE && 0 <= s0 < TWO16
      && packets == Sent(c, st.ssrc, units, s0) by { WiredMeans(c, st, units, s0, packets); }
    SentNumbered(c, st, units, s0);
    ReorderingIsTransparent(c, st, packets, s0, legs, clock);
    var b := InOrderSteady(c, st, units, s0, packets, Offset(s0, legs[0].n.value), FRESH, v, w, j);
  }

  // ------------------------------------------------------------------ reception beginning inside a unit

  lemma EventsAt(c: Codec, u: Unit, j: nat)
    requires j < |Parts(c, u)|
    ensures EventsOf(c, u)[j] == PacketOf(c, u, j)
  {
    hide Parts;
    MarkedAt(Parts(c, u), PtsOf(u), j);
  }

  /** What the packet j places after place n is fed as. */
  ghost function EventPast(st: Stream, packets: seq<Packet>, n: int, j: int): Event {
    EventOf(VideoOf(st, packets, n + j))
  }

  /** The packets from place n on are fed as these events. */
  ghost predicate Carries(st: Stream, packets: seq<Packet>, n: int, es: seq<Event>) {
    forall j :: 0 <= j < |es| ==> EventPast(st, packets, n, j) == es[j]
  }

  lemma HereAt(c: Codec, units: seq<Unit>, v: nat, j: nat)
    requires v < |units| && j < |Parts(c, units[v])|
    ensures At(c, units, Count(c, units[..v]) + j, v, j)
  {
    hide Count, Parts;
  }

  lemma UnitCarriesAt(c: Codec, st: Stream, units: seq<Unit>, s0: int, packets: seq<Packet>, v: nat, j: nat)
    requires Wired(c, st, units, s0, packets) && v < |units| && j < |EventsOf(c, units[v])|
    ensures EventPast(st, packets, Count(c, units[..v]), j) == EventsOf(c, units[v])[j]
  {
    hide Count, Parts, Sent, VideoOf, EventOf, PacketOf, EventsOf, Wired, At;
    WiredMeans(c, st, units, s0, packets);
    HereAt(c, units, v, j);
    EventsAt(c, units[v], j);
    EventAt(c, st, units, s0, Count(c, units[..v]) + j, v, j);
  }

  lemma UnitCarries(c: Codec, st: Stream, units: seq<Unit>, s0: int, packets: seq<Packet>, v: nat)
    requires Wired(c, st, units, s0, packets) && v < |units|
    ensures Carries(st, packets, Count(c, units[..v]), EventsOf(c, units[v]))
  {
    hide Count, EventPast, EventsOf, Wired;
    var n, es := Count(c, units[..v]), EventsOf(c, units[v]);
    forall j | 0 <= j < |es| ensures EventPast(st, packets, n, j) == es[j] {
      UnitCarriesAt(c, st, units, s0, packets, v, j);
    }
  }

  lemma {:induction false} InOrderIsEvents(st: Stream, packets: seq<Packet>, off: int, n: int, es: seq<Event>,
                                           from: nat, i: nat)
    requires Carries(st, packets, n, es) && from <= i <= |es|
    ensures InOrder(st, packets, off, n + from + off, n + i + off) == es[from..i]
    decreases i
  {
    hide VideoOf, EventOf;
    if from < i {
      InOrderIsEvents(st, packets, off, n, es, from, i - 1);
      assert es[from..i] == es[from..i - 1] + [es[i - 1]];
    }
  }

  lemma {:induction false} InOrderConcat(st: Stream, packets: seq<Packet>, off: int, a: int, m: int, b: int)
    requires a <= m <= b
    ensures InOrder(st, packets, off, a, b) == InOrder(st, packets, off, a, m) + InOrder(st, packets, off, m, b)
    decreases b - m
  {
    if m < b {
      hide VideoOf, EventOf;
      InOrderConcat(st, packets, off, a, m, b - 1);
    }
  }

  /** The k-th NAL unit of unit v begins with its packet `from`. */
  ghost predicate JoinsAt(c: Codec, units: seq<Unit>, v: nat, from: nat, k: nat) {
    && v < |units| && from < |Parts(c, units[v])|
    && NalStart(c, Nals(units[v].data), from, k) && k < |Nals(units[v].data)|
  }

  /** What is left of unit v from its k-th NAL unit on, and the units after it up to w - 1. */
  ghost function RestThen(c: Codec, units: seq<Unit>, v: nat, k: nat, w: nat): seq<Frame>
    requires v < w <= |units| && k <= |Nals(units[v].data)|
  {
    [RestOf(c, units[v], k)] + FramesOf(c, units, v + 1, w)
  }

  lemma JoinsMeans(c: Codec, units: seq<Unit>, v: nat, from: nat, k: nat)
    requires JoinsAt(c, units, v, from, k)
    ensures v < |units| && from < |Parts(c, units[v])| && k < |Nals(units[v].data)|
  {
  }

  lemma JoinsBefore(c: Codec, units: seq<Unit>, v: nat, from: nat)
    requires v < |units| && from < |Parts(c, units[v])|
    ensures Count(c, units[..v]) + from < Count(c, units)
  {
    hide Count, Parts;
    CountGrows(c, units, v, |units|);
    assert units[..|units|] == units;
  }

  /** The rest of unit v, from its k-th NAL unit on, comes out first. */
  lemma RestComesOut(c: Codec, st: Stream, units: seq<Unit>, s0: int, packets: seq<Packet>, off: int,
                     v: nat, from: nat, k: nat)
    requires Wired(c, st, units, s0, packets) && AllFit(units) && JoinsAt(c, units, v, from, k)
    ensures var first, end := Count(c, units[..v]) + from + off, Count(c, units[..v + 1]) + off;
      var r := Run(c, FRESH, InOrder(st, packets, off, first, end));
      r.1 == [RestOf(c, units[v], k)] && Idle(r.0)
  {
    hide Run, InOrder, Sent, Count, Fits, Legal, Payloads, EventsOf, RestOf;
    var u := units[v];
    assert u in units;
    CountSnoc(c, units, v);
    UnitCarries(c, st, units, s0, packets, v);
    hide Carries;
    InOrderIsEvents(st, packets, off, Count(c, units[..v]), EventsOf(c, u), from, |Parts(c, u)|);
    assert EventsOf(c, u)[from..|Parts(c, u)|] == EventsOf(c, u)[from..];
    var r := Run(c, FRESH, EventsOf(c, u)[from..]);
    assert from > 0 by { LaterUnitStarts(c, Nals(u.data), from, k); }
    UnitOutcome(c, u, FRESH, from, r);
    var i: nat :| NalStart(c, Nals(u.data), from, i) && r.1[0] == RestOf(c, u, i);
    NalStartUnique(c, Nals(u.data), from, i, k);
  }

  lemma LaterUnitStarts(c: Codec, nals: seq<Nal>, j: int, k: nat)
    requires NalStart(c, nals, j, k)
    ensures j > 0
  {
    assert nals[..k] != [];
  }

  /**
   Reception begins with the k-th NAL unit of unit v, nothing expires, nothing overflows: once the least
   place that has not arrived is packet j of a later unit w (or the end), the decoder has been given
   exactly what is left of v, and the units after it up to w - 1.
   */
  lemma JoinedIsDelivered(c: Codec, st: Stream, units: seq<Unit>, s0: int, packets: seq<Packet>, legs: seq<Leg>,
                          clock: int -> int, v: nat, from: nat, k: nat, w: nat, j: nat)
    requires Wired(c, st, units, s0, packets) && AllFit(units) && InWindow(packets, -1, legs)
    requires legs != [] && CalmRun(c, st, packets, START, legs)
    requires Calm(c, Driven(c, st, packets, START, legs), clock, 0)
    requires v < w <= |units| && JoinsAt(c, units, v, from, k)
    requires legs[0].n == Some(Count(c, units[..v]) + from)
    requires j > 0 ==> w < |units| && j < |Parts(c, units[w])|
    requires Drained(c, Driven(c, st, packets, START, legs), clock, 0).next ==
      Count(c, units[..w]) + j + Offset(s0, legs[0].n.value)
    ensures Drained(c, Driven(c, st, packets, START, legs), clock, 0).frames == RestThen(c, units, v, k, w)
  {
    hide Wired, Driven, Drained, CalmRun, Calm, Count, Run, FramesOf, InWindow, EventsOf, Parts, AtBoundary, Sent,
      Arrived, Handovers, InOrder, Offset, AllFit, Numbered, Idle, RestOf, NalStart;
    WiredMeans(c, st, units, s0, packets);
    SentNumbered(c, st, units, s0);
    ReorderingIsTransparent(c, st, packets, s0, legs, clock);
    var off := Offset(s0, legs[0].n.value);
    RestComesOut(c, st, units, s0, packets, off, v, from, k);
    var a, m, b := Count(c, units[..v]) + from + off, Count(c, units[..v + 1]) + off, Count(c, units[..w]) + j + off;
    CountSnoc(c, units, v);
    CountGrows(c, units, v + 1, w);
    InOrderConcat(st, packets, off, a, m, b);
    RunConcat(c, FRESH, InOrder(st, packets, off, a, m), InOrder(st, packets, off, m, b));
    var d0 := Run(c, FRESH, InOrder(st, packets, off, a, m)).0;
    var b' := InOrderSteady(c, st, units, s0, packets, off, d0, v + 1, w, j);
  }

  lemma WiredMeans(c: Codec, st: Stream, units: seq<Unit>, s0: int, packets: seq<Packet>)
    requires Wired(c, st, units, s0, packets)
    ensures 0 <= st.ssrc < TWO32 && st.payloadType == VIDEO_PAYLOAD_TYPE && 0 <= s0 < TWO16
    ensures packets == Sent(c, st.ssrc, units, s0)
  {
  }

  // ------------------------------------------------------------------ a perfect channel

  /** The packets from place a on arrive one after the other. */
  function Straight(a: nat, n: nat, clock: int -> int, now: int): (legs: seq<Leg>)
    ensures |legs| == if a < n then n - a else 0
    decreases n - a
  {
    if a >= n then [] else [Leg(clock, Some(a), now)] + Straight(a + 1, n, clock, now)
  }

  /** Nothing is held, and the next packet to arrive is the one expected. */
  ghost predicate Expecting(s: Recv, a: int, off: int) {
    s.jitter == map[] && s.next == a + off && s.highest == a - 1 + off && s.highest >= 0
  }

  lemma NextAtEnd(s: Recv, a: int, off: int)
    requires Expecting(s, a, off)
    ensures s.jitter == map[] && s.next == a + off
  {
  }

  lemma NextInOrder(c: Codec, st: Stream, packets: seq<Packet>, s0: int, n0: int, s: Recv, a: nat, leg: Leg)
    requires Numbered(st, packets, s0) && leg.n == Some(a) && a < |packets| && Expecting(s, a, Offset(s0, n0))
    ensures Expecting(LegDone(c, st, packets, s, leg), a + 1, Offset(s0, n0))
  {
    hide Step, VideoOf, Numbered, Received, Offset;
    ArrivalIsPlaced(c, st, packets, s0, n0, s, a - 1, a, leg.now);
  }

  lemma {:induction false} StraightRun(c: Codec, st: Stream, packets: seq<Packet>, s0: int, n0: int, s: Recv,
                                       a: nat, clock: int -> int, now: int)
    requires Numbered(st, packets, s0) && a <= |packets| && Expecting(s, a, Offset(s0, n0))
    ensures var legs := Straight(a, |packets|, clock, now);
      && CalmRun(c, st, packets, s, legs) && InWindow(packets, a - 1, legs)
      && Expecting(Driven(c, st, packets, s, legs), |packets|, Offset(s0, n0))
    decreases |packets| - a
  {
    hide LegDone, Numbered, Offset;
    if a < |packets| {
      var leg := Leg(clock, Some(a), now);
      var rest := Straight(a + 1, |packets|, clock, now);
      assert Straight(a, |packets|, clock, now)[1..] == rest;
      NextInOrder(c, st, packets, s0, n0, s, a, leg);
      StraightRun(c, st, packets, s0, n0, LegDone(c, st, packets, s, leg), a + 1, clock, now);
    }
  }

  lemma StraightWhole(c: Codec, st: Stream, packets: seq<Packet>, s0: int, a: nat, clock: int -> int, now: int)
    requires Numbered(st, packets, s0) && a < |packets|
    ensures var legs := Straight(a, |packets|, clock, now);
      && legs != [] && legs[0].n == Some(a)
      && CalmRun(c, st, packets, START, legs) && InWindow(packets, -1, legs)
      && Expecting(Driven(c, st, packets, START, legs), |packets|, Offset(s0, a))
  {
    var legs := Straight(a, |packets|, clock, now);
    var leg := Leg(clock, Some(a), now);
    StraightBegins(a, |packets|, clock, now);
    hide LegDone, Numbered, Offset, Straight, Step, VideoOf, LoopInv, EventOf;
    FirstExpecting(c, st, packets, s0, leg);
    StraightRun(c, st, packets, s0, a, LegDone(c, st, packets, START, leg), a + 1, clock, now);
    assert Calm(c, START, clock, 0);
    hide Expecting, Calm;
  }

  lemma StraightBegins(a: nat, n: nat, clock: int -> int, now: int)
    requires a < n
    ensures var legs := Straight(a, n, clock, now);
      legs != [] && legs[0] == Leg(clock, Some(a), now) && legs[1..] == Straight(a + 1, n, clock, now)
  {
  }

  lemma FirstExpecting(c: Codec, st: Stream, packets: seq<Packet>, s0: int, leg: Leg)
    requires Numbered(st, packets, s0) && leg.n.Some? && leg.n.value < |packets|
    ensures Expecting(LegDone(c, st, packets, START, leg), leg.n.value + 1, Offset(s0, leg.n.value))
  {
    hide LegDone, Numbered, Offset, Step, VideoOf, LoopInv, EventOf;
    FirstState(c, st, packets, s0, leg);
    FirstNumber(s0, leg.n.value);
  }

  lemma NothingHeld(c: Codec, s: Recv, clock: int -> int)
    requires s.jitter == map[]
    ensures Calm(c, s, clock, 0) && Drained(c, s, clock, 0) == s
  {
  }

  lemma StraightFrom(c: Codec, st: Stream, units: seq<Unit>, s0: int, packets: seq<Packet>,
                     clock: int -> int, now: int, v: nat)
    requires Wired(c, st, units, s0, packets) && AllFit(units) && v < |units|
    ensures Driven(c, st, packets, START, Straight(Count(c, units[..v]), |packets|, clock, now)).frames ==
      FramesOf(c, units, v, |units|)
  {
    hide *;
    WiredMeans(c, st, units, s0, packets);
    SentNumbered(c, st, units, s0);
    assert units[..|units|] == units;
    CountGrows(c, units, v, |units|);
    SomeParts(c, st, units, s0, packets, v);
    var a := Count(c, units[..v]);
    StraightWhole(c, st, packets, s0, a, clock, now);
    var legs := Straight(a, |packets|, clock, now);
    var last := Driven(c, st, packets, START, legs);
    NextAtEnd(last, |packets|, Offset(s0, a));
    NothingHeld(c, last, clock);
    ArrivedIsDelivered(c, st, units, s0, packets, legs, clock, v, |units|, 0);
  }

  lemma SomeParts(c: Codec, st: Stream, units: seq<Unit>, s0: int, packets: seq<Packet>, u: nat)
    requires Wired(c, st, units, s0, packets) && u < |units|
    ensures |Parts(c, units[u])| > 0
  {
    hide Parts, Sent;
    assert units[u] in units;
  }

  /**
   A channel that loses, repeats and reorders nothing is the identity: from the unit at whose start reception
   begins, every access unit is shown, exactly as sent, in order.
   */
  lemma PerfectChannelDeliversAll(c: Codec, st: Stream, units: seq<Unit>, s0: int, packets: seq<Packet>,
                                  clock: int -> int, now: int, v: nat)
    requires Wired(c, st, units, s0, packets) && AllFit(units) && v <= |units|
    ensures Driven(c, st, packets, START, Straight(Count(c, units[..v]), |packets|, clock, now)).frames ==
      FramesOf(c, units, v, |units|)
  {
    if v < |units| {
      StraightFrom(c, st, units, s0, packets, clock, now, v);
    } else {
      hide Parts, Sent;
      assert units[..v] == units;
    }
  }

  /**
   The same channel, reception beginning with the k-th NAL unit of unit v: what is left of v is shown,
   and every unit after it.
   */
  lemma PerfectChannelShowsTheRest(c: Codec, st: Stream, units: seq<Unit>, s0: int, packets: seq<Packet>,
                                   clock: int -> int, now: int, v: nat, from: nat, k: nat)
    requires Wired(c, st, units, s0, packets) && AllFit(units) && JoinsAt(c, units, v, from, k)
    ensures Driven(c, st, packets, START, Straight(Count(c, units[..v]) + from, |packets|, clock, now)).frames ==
      RestThen(c, units, v, k, |units|)
  {
    hide *;
    JoinsMeans(c, units, v, from, k);
    WiredMeans(c, st, units, s0, packets);
    SentNumbered(c, st, units, s0);
    JoinsBefore(c, units, v, from);
    var a := Count(c, units[..v]) + from;
    assert units[..|units|] == units;
    StraightWhole(c, st, packets, s0, a, clock, now);
    var legs := Straight(a, |packets|, clock, now);
    NextAtEnd(Driven(c, st, packets, START, legs), |packets|, Offset(s0, a));
    NothingHeld(c, Driven(c, st, packets, START, legs), clock);
    JoinedIsDelivered(c, st, units, s0, packets, legs, clock, v, from, k, |units|, 0);
  }
}
