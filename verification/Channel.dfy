/**
 The network between streamer and client: any packets the streamer numbered, in any order, any
 number of times, as long as each arrives within the 16-bit window around the highest so far.

 Numbering recovers each packet's place in the stream, and on a channel that merely reorders, the
 depacketizer sees exactly what an in-order network would have given it.
 */
module Channel {
  import opened Bytes
  import opened Rtp
  import opened Packetizer
  import opened Depacketizer
  import opened Receiver

  /** All the packets of a stream: numbered consecutively from s0 on, modulo 2^16. */
  ghost predicate Numbered(st: Stream, packets: seq<Packet>, s0: int) {
    forall n :: 0 <= n < |packets| ==>
      VideoIn(st, packets[n]).Some? && VideoIn(st, packets[n]).value.seqNo == (s0 + n) % TWO16
  }

  function VideoOf(st: Stream, packets: seq<Packet>, n: int): Video {
    if 0 <= n < |packets| && VideoIn(st, packets[n]).Some? then
      var d := VideoIn(st, packets[n]).value;
      Video(d.payload, d.marker, d.ts)
    else Video([], false, 0)
  }

  /** One iteration of the receive loop: the place of the packet that arrives, or a timeout. */
  datatype Leg = Leg(clock: int -> int, n: Option<nat>, now: int)

  /** h is the highest place so far, -1 before the first arrival. */
  ghost predicate InWindow(packets: seq<Packet>, h: int, legs: seq<Leg>)
    decreases |legs|
  {
    legs == [] ||
    match legs[0].n
    case None => InWindow(packets, h, legs[1..])
    case Some(n) =>
      && n < |packets| && (h >= 0 ==> -0x8000 <= n - h < 0x8000)
      && InWindow(packets, if n > h then n else h, legs[1..])
  }

  ghost function LegDone(c: Codec, st: Stream, packets: seq<Packet>, s: Recv, leg: Leg): Recv {
    var data := if leg.n.Some? && leg.n.value < |packets| then Some(packets[leg.n.value]) else None;
    TurnDone(c, st, s, Turn(leg.clock, data, leg.now))
  }

  ghost function Driven(c: Codec, st: Stream, packets: seq<Packet>, s: Recv, legs: seq<Leg>): Recv
    decreases |legs|
  {
    if legs == [] then s else Driven(c, st, packets, LegDone(c, st, packets, s, legs[0]), legs[1..])
  }

  function Top(h: int, leg: Leg): int {
    if leg.n.Some? && leg.n.value > h then leg.n.value else h
  }

  /** Extended numbers exceed places by this much, for good, once place n0 has arrived first. */
  function Offset(s0: int, n0: int): int {
    (s0 + n0) % TWO16 - n0
  }

  /** Across any number of wraps, an arrival is filed under its own place. */
  lemma ArrivalIsPlaced(c: Codec, st: Stream, packets: seq<Packet>, s0: int, n0: int, s: Recv, h: int, n: nat, now: int)
    requires Numbered(st, packets, s0) && n < |packets|
    requires s.highest == h + Offset(s0, n0) >= 0 && -0x8000 <= n - h < 0x8000
    ensures Received(c, st, s, packets[n], now) ==
      Placed(c, s, n + Offset(s0, n0), VideoOf(st, packets, n), now)
  {
    hide Placed, VideoIn;
    var off := Offset(s0, n0);
    assert (s0 + n) % TWO16 == (n + off) % TWO16;
    UnwrapRecovers(s.highest, n + off);
  }

  lemma FirstArrivalIsPlaced(c: Codec, st: Stream, packets: seq<Packet>, s0: int, n0: nat, now: int)
    requires Numbered(st, packets, s0) && n0 < |packets|
    ensures Received(c, st, START, packets[n0], now) ==
      Delivered(c, START.(highest := n0 + Offset(s0, n0)), n0 + Offset(s0, n0), VideoOf(st, packets, n0))
  {
    hide Delivered, VideoIn;
  }

  // ------------------------------------------------------------------ mere reordering

  /** In this drain no entry expires and the buffer does not overflow. */
  ghost predicate Calm(c: Codec, s: Recv, clock: int -> int, i: int)
    decreases |s.jitter|
  {
    s.jitter == map[] ||
    var k := Head(s.jitter);
    && |s.jitter| <= JITTER_MAX
    && clock(i) - s.jitter[k].receivedMs < REPAIR_BUDGET_MS
    && (k == s.next ==> (PopShrinks(c, s, k); Calm(c, Popped(c, s, k), clock, i + 1)))
  }

  ghost predicate CalmRun(c: Codec, st: Stream, packets: seq<Packet>, s: Recv, legs: seq<Leg>)
    decreases |legs|
  {
    legs == [] ||
    (Calm(c, s, legs[0].clock, 0) && CalmRun(c, st, packets, LegDone(c, st, packets, s, legs[0]), legs[1..]))
  }

  /** The extended numbers of the arrivals. */
  ghost function Arrived(legs: seq<Leg>, off: int): set<int> {
    if legs == [] then {}
    else
      var leg := legs[|legs| - 1];
      Arrived(legs[..|legs| - 1], off) + (if leg.n.Some? then {leg.n.value + off} else {})
  }

  /** The packets numbered a up to b, as events and as trace. */
  ghost function InOrder(st: Stream, packets: seq<Packet>, off: int, a: int, b: int): seq<Event>
    decreases b - a
  {
    if b <= a then [] else InOrder(st, packets, off, a, b - 1) + [EventOf(VideoOf(st, packets, b - 1 - off))]
  }

  ghost function Handovers(a: int, b: int): seq<Action>
    decreases b - a
  {
    if b <= a then [] else Handovers(a, b - 1) + [Handed(b - 1)]
  }

  /** The depacketizer and the trace are where handing over `first` up to s.next in order puts them. */
  ghost predicate InStep(c: Codec, st: Stream, packets: seq<Packet>, off: int, first: int, s: Recv) {
    && s.trace == Handovers(first, s.next)
    && (s.depack, s.frames) == Run(c, FRESH, InOrder(st, packets, off, first, s.next))
  }

  /** Everything from `first` up to s.next has arrived and been handed over; the later arrivals are held. */
  ghost predicate Transparent(c: Codec, st: Stream, packets: seq<Packet>, off: int, first: int, arrived: set<int>,
                              s: Recv)
  {
    && 0 <= first < s.next
    && (forall k :: first <= k < s.next ==> k in arrived)
    && (forall k :: k in s.jitter <==> k in arrived && s.next <= k)
    && (forall k :: k in s.jitter ==> s.jitter[k].video == VideoOf(st, packets, k - off))
    && InStep(c, st, packets, off, first, s)
  }

  lemma DeliverInOrder(c: Codec, st: Stream, packets: seq<Packet>, off: int, first: int, s: Recv)
    requires first <= s.next && InStep(c, st, packets, off, first, s)
    ensures var s1 := Delivered(c, s, s.next, VideoOf(st, packets, s.next - off));
      && InStep(c, st, packets, off, first, s1)
      && s1.next == s.next + 1 && s1.jitter == s.jitter && s1.highest == s.highest
  {
    hide Step, VideoOf;
    var e := EventOf(VideoOf(st, packets, s.next - off));
    var es := InOrder(st, packets, off, first, s.next);
    RunConcat(c, FRESH, es, [e]);
    var (d, f) := Step(c, s.depack, e);
    assert Run(c, s.depack, [e]) == (d, ToSeq(f)) by {
      assert Run(c, d, [e][1..]) == (d, []);
      assert ToSeq(f) + [] == ToSeq(f);
    }
  }

  lemma PopTransparent(c: Codec, st: Stream, packets: seq<Packet>, off: int, first: int, arrived: set<int>, s: Recv)
    requires Transparent(c, st, packets, off, first, arrived, s) && s.next in s.jitter
    ensures Transparent(c, st, packets, off, first, arrived, Popped(c, s, s.next))
    ensures Popped(c, s, s.next).highest == s.highest
  {
    hide Delivered, VideoOf, InStep;
    var m := s.jitter - {s.next};
    assert forall k :: k in m <==> k in s.jitter && k != s.next;
    InStepJitter(c, st, packets, off, first, s, s.(jitter := m));
    DeliverInOrder(c, st, packets, off, first, s.(jitter := m));
  }

  lemma InStepJitter(c: Codec, st: Stream, packets: seq<Packet>, off: int, first: int, s: Recv, s': Recv)
    requires InStep(c, st, packets, off, first, s) && s' == s.(jitter := s'.jitter, highest := s'.highest)
    ensures InStep(c, st, packets, off, first, s')
  {
  }

  lemma {:induction false} DrainTransparent(c: Codec, st: Stream, packets: seq<Packet>, off: int, first: int,
                                            arrived: set<int>, s: Recv, clock: int -> int, i: int)
    requires Transparent(c, st, packets, off, first, arrived, s) && Calm(c, s, clock, i)
    ensures var s1 := Drained(c, s, clock, i);
      && Transparent(c, st, packets, off, first, arrived, s1)
      && s1.next !in arrived && s1.highest == s.highest
    decreases |s.jitter|
  {
    hide Popped, InStep;
    if s.jitter != map[] && Head(s.jitter) == s.next {
      PopTransparent(c, st, packets, off, first, arrived, s);
      PopShrinks(c, s, s.next);
      DrainTransparent(c, st, packets, off, first, arrived, Popped(c, s, s.next), clock, i + 1);
    } else {
      assert s.next !in s.jitter;
    }
  }

  lemma PlaceTransparent(c: Codec, st: Stream, packets: seq<Packet>, off: int, first: int,
                         arrived: set<int>, s: Recv, ext: int, now: int)
    requires Transparent(c, st, packets, off, first, arrived, s) && s.next !in arrived
    ensures var s1 := Placed(c, s, ext, VideoOf(st, packets, ext - off), now);
      && Transparent(c, st, packets, off, first, arrived + {ext}, s1)
      && s1.highest == if ext > s.highest then ext else s.highest
  {
    hide Delivered, VideoOf, InStep;
    var s0 := s.(highest := if ext > s.highest then ext else s.highest);
    var s1 := Placed(c, s, ext, VideoOf(st, packets, ext - off), now);
    InStepJitter(c, st, packets, off, first, s, s0);
    if ext == s.next {
      DeliverInOrder(c, st, packets, off, first, s0);
    } else {
      InStepJitter(c, st, packets, off, first, s, s1);
    }
  }

  lemma {:induction false} CalmRunTransparent(c: Codec, st: Stream, packets: seq<Packet>, s0: int, n0: int,
                                              done: seq<Leg>, s: Recv, h: int, legs: seq<Leg>)
    requires Numbered(st, packets, s0) && n0 <= h && 0 <= h
    requires var off := Offset(s0, n0);
      Transparent(c, st, packets, off, n0 + off, Arrived(done, off), s) && s.highest == h + off
    requires InWindow(packets, h, legs) && CalmRun(c, st, packets, s, legs)
    ensures var off := Offset(s0, n0);
      Transparent(c, st, packets, off, n0 + off, Arrived(done + legs, off), Driven(c, st, packets, s, legs))
    decreases |legs|
  {
    hide Transparent, Received, Placed, Calm, Drained, Numbered;
    if legs == [] {
      assert done + legs == done;
    } else {
      var off := Offset(s0, n0);
      var leg := legs[0];
      DrainTransparent(c, st, packets, off, n0 + off, Arrived(done, off), s, leg.clock, 0);
      var s1 := Drained(c, s, leg.clock, 0);
      if leg.n.Some? {
        ArrivalIsPlaced(c, st, packets, s0, n0, s1, h, leg.n.value, leg.now);
        PlaceTransparent(c, st, packets, off, n0 + off, Arrived(done, off), s1, leg.n.value + off, leg.now);
      }
      assert (done + [leg])[..|done|] == done;
      assert leg.n.None? ==> Arrived(done + [leg], off) == Arrived(done, off);
      CalmRunTransparent(c, st, packets, s0, n0, done + [leg], LegDone(c, st, packets, s, leg), Top(h, leg), legs[1..]);
      assert done + [leg] + legs[1..] == done + legs;
    }
  }

  lemma FirstLegTransparent(c: Codec, st: Stream, packets: seq<Packet>, s0: int, leg: Leg)
    requires Numbered(st, packets, s0) && leg.n.Some? && leg.n.value < |packets|
    ensures var n0 := leg.n.value;
      var off := Offset(s0, n0);
      var s := LegDone(c, st, packets, START, leg);
      Transparent(c, st, packets, off, n0 + off, Arrived([leg], off), s) && s.highest == n0 + off
  {
    hide Step, VideoOf, Numbered, Delivered;
    var n0 := leg.n.value;
    var off := Offset(s0, n0);
    var first := n0 + off;
    FirstArrivalIsPlaced(c, st, packets, s0, n0, leg.now);
    var s1 := START.(highest := first, next := first);
    assert InStep(c, st, packets, off, first, s1);
    DeliverInOrder(c, st, packets, off, first, s1);
    SameDelivery(c, START.(highest := first), s1, first, VideoOf(st, packets, n0));
    assert [leg][..0] == [];
    assert Arrived([leg], off) == {first};
  }

  lemma SameDelivery(c: Codec, s: Recv, s': Recv, ext: int, v: Video)
    requires s' == s.(next := s'.next)
    ensures Delivered(c, s, ext, v) == Delivered(c, s', ext, v)
  {
  }

  lemma WholeCalmRun(c: Codec, st: Stream, packets: seq<Packet>, s0: int, legs: seq<Leg>, clock: int -> int)
    requires Numbered(st, packets, s0) && InWindow(packets, -1, legs)
    requires legs != [] && legs[0].n.Some? && CalmRun(c, st, packets, START, legs)
    requires Calm(c, Driven(c, st, packets, START, legs), clock, 0)
    ensures var off := Offset(s0, legs[0].n.value);
      var s := Drained(c, Driven(c, st, packets, START, legs), clock, 0);
      && Transparent(c, st, packets, off, legs[0].n.value + off, Arrived(legs, off), s)
      && s.next !in Arrived(legs, off)
  {
    hide Transparent, LegDone, Calm, Numbered, Drained;
    var n0 := legs[0].n.value;
    var off := Offset(s0, n0);
    FirstLegTransparent(c, st, packets, s0, legs[0]);
    assert [legs[0]] + legs[1..] == legs;
    CalmRunTransparent(c, st, packets, s0, n0, [legs[0]], LegDone(c, st, packets, START, legs[0]), n0, legs[1..]);
    DrainTransparent(c, st, packets, off, n0 + off, Arrived(legs, off), Driven(c, st, packets, START, legs), clock, 0);
  }

  /**
   While nothing expires and nothing overflows: after each drain, what was handed over is exactly the
   numbers first, first + 1, ... up to the least one that has not arrived, without any gap announced;
   the later arrivals are held, and the depacketizer is where an in-order network would have put it.
   */
  lemma ReorderingIsTransparent(c: Codec, st: Stream, packets: seq<Packet>, s0: int, legs: seq<Leg>, clock: int -> int)
    requires Numbered(st, packets, s0) && InWindow(packets, -1, legs)
    requires legs != [] && legs[0].n.Some? && CalmRun(c, st, packets, START, legs)
    requires Calm(c, Driven(c, st, packets, START, legs), clock, 0)
    ensures var off := Offset(s0, legs[0].n.value);
      var first := legs[0].n.value + off;
      var arrived := Arrived(legs, off);
      var s := Drained(c, Driven(c, st, packets, START, legs), clock, 0);
      && (forall k :: first <= k < s.next ==> k in arrived) && first < s.next && s.next !in arrived
      && (forall k :: k in s.jitter <==> k in arrived && s.next < k)
      && s.trace == Handovers(first, s.next)
      && (s.depack, s.frames) == Run(c, FRESH, InOrder(st, packets, off, first, s.next))
  {
    hide Driven, Drained, Calm, CalmRun, InWindow, Numbered, Run, Arrived, InOrder, Handovers, Offset;
    WholeCalmRun(c, st, packets, s0, legs, clock);
  }
}
