/**
 A whole session: from the calls of broadcast_video, through the streamer's threads, the wire and a
 network that loses, repeats and reorders, to the frames the client's decoder is given.
 */
module Session {
  import opened Bytes
  import opened AnnexB
  import opened Rtp
  import opened Packetizer
  import opened Depacketizer
  import opened Receiver
  import opened Channel
  import E = EndToEnd
  import S = Server
  import Runs = ServerRuns
  import Safety = ServerSafety

  /** One iteration of the client's loop: a datagram that the streamer put on the wire, or a timeout. */
  datatype Arrival = Arrival(clock: int -> int, act: Option<nat>, now: int)

  ghost predicate FromWire(log: seq<S.Act>, arrivals: seq<Arrival>)
    decreases |arrivals|
  {
    arrivals == [] ||
    ((arrivals[0].act.Some? ==> arrivals[0].act.value < |log| && Safety.OnWire(log[arrivals[0].act.value]))
     && FromWire(log, arrivals[1..]))
  }

  function TurnsOf(log: seq<S.Act>, arrivals: seq<Arrival>): seq<Turn> {
    if arrivals == [] then []
    else
      var a := arrivals[0];
      var data := if a.act.Some? && a.act.value < |log| then Some(log[a.act.value].packet) else None;
      [Turn(a.clock, data, a.now)] + TurnsOf(log, arrivals[1..])
  }

  /** Place n of the stream is where the packet of log entry k belongs. */
  ghost predicate PlaceOf(g: S.Config, w: Runs.World, all: seq<Packet>, k: nat, n: nat) {
    && k < |w.s.log| && n < |all| && all[n] == w.s.log[k].packet
    && Safety.InSpan(g, w.h, w.s.log[k].generation, n)
  }

  /** The legs say at which place of the stream each datagram belongs. */
  ghost predicate Located(g: S.Config, w: Runs.World, all: seq<Packet>, arrivals: seq<Arrival>, legs: seq<Leg>)
    decreases |arrivals|
  {
    if arrivals == [] then legs == []
    else
      && legs != [] && Located(g, w, all, arrivals[1..], legs[1..])
      && legs[0].clock == arrivals[0].clock && legs[0].now == arrivals[0].now
      && match arrivals[0].act
         case None => legs[0].n.None?
         case Some(k) => legs[0].n.Some? && PlaceOf(g, w, all, k, legs[0].n.value)
  }

  /** Whatever arrives has a place in the stream. */
  lemma {:induction false} ArrivalsHavePlaces(g: S.Config, es: seq<S.Event>, arrivals: seq<Arrival>)
    returns (legs: seq<Leg>)
    requires S.Configured(g) && FromWire(Runs.Reached(g, es).s.log, arrivals)
    ensures var w := Runs.Reached(g, es);
      Located(g, w, E.Sent(g.codec, g.ssrc, w.h.units, 0), arrivals, legs)
    decreases |arrivals|
  {
    hide Runs.Reached, E.Sent, Safety.InSpan;
    legs := [];
    if arrivals != [] {
      var a := arrivals[0];
      var rest := ArrivalsHavePlaces(g, es, arrivals[1..]);
      var place: Option<nat> := None;
      if a.act.Some? {
        var n := Safety.WireIsTheStream(g, es, a.act.value);
        place := Some(n);
      }
      legs := [Leg(a.clock, place, a.now)] + rest;
      assert legs[1..] == rest;
    }
  }

  /** The client runs the same on the datagrams as on their places. */
  lemma {:induction false} SameRun(g: S.Config, st: Stream, s: Recv, w: Runs.World, all: seq<Packet>,
                                   arrivals: seq<Arrival>, legs: seq<Leg>)
    requires Located(g, w, all, arrivals, legs)
    ensures Looped(g.codec, st, s, TurnsOf(w.s.log, arrivals)) == Driven(g.codec, st, all, s, legs)
    decreases |arrivals|
  {
    hide TurnDone, Safety.InSpan;
    if arrivals != [] {
      assert TurnsOf(w.s.log, arrivals)[1..] == TurnsOf(w.s.log, arrivals[1..]);
      SameRun(g, st, LegDone(g.codec, st, all, s, legs[0]), w, all, arrivals[1..], legs[1..]);
    }
  }

  // ------------------------------------------------------------------ what stands between two frames

  lemma {:induction false} LegInSpan(g: S.Config, w: Runs.World, all: seq<Packet>, arrivals: seq<Arrival>,
                                     legs: seq<Leg>, leg: Leg)
    returns (k: nat)
    requires Located(g, w, all, arrivals, legs) && leg in legs && leg.n.Some?
    ensures Safety.InSpan(g, w.h, k, leg.n.value)
    decreases |arrivals|
  {
    hide Safety.InSpan;
    if leg == legs[0] {
      k := w.s.log[arrivals[0].act.value].generation;
    } else {
      k := LegInSpan(g, w, all, arrivals[1..], legs[1..], leg);
    }
  }

  /** A generation to which the last packet of a unit belongs is one the unit was queued under. */
  lemma UnitInSpan(g: S.Config, h: Runs.History, k: nat, u: nat)
    requires E.Sendable(g.codec, h.units) && u < |h.units|
    requires Safety.InSpan(g, h, k, E.Count(g.codec, h.units[..u + 1]) - 1)
    ensures k < |h.spans| && h.spans[k].from <= u < h.spans[k].to <= |h.units|
  {
    hide E.Count, E.Parts;
    assert h.units[u] in h.units;
    E.CountSnoc(g.codec, h.units, u);
    var sp := h.spans[k];
    if u < sp.from {
      E.CountGrows(g.codec, h.units, u + 1, sp.from);
    } else if sp.to <= u {
      E.CountGrows(g.codec, h.units, sp.to, u);
    }
  }

  /** Every call flagged as a keyframe brings an IDR unit. */
  ghost predicate KeyframesHoldIdr(c: Codec, calls: seq<Runs.Call>) {
    forall call :: call in calls && call.keyframe ==> HasIdr(c, Nals(call.unit.data))
  }

  lemma HistoryIsSafe(g: S.Config, es: seq<S.Event>, k: nat)
    requires S.Configured(g) && k < |Runs.Reached(g, es).h.spans|
    ensures var w := Runs.Reached(g, es);
      Runs.Safe(w.h, w.s.log, k) && Runs.Matched(w.h) && |w.h.units| == |w.h.callOf|
  {
    hide Runs.Reached, Runs.Safe;
    Safety.GenerationsAreSafe(g, es, 0);
    Safety.GenerationsAreSafe(g, es, k);
  }

  /** A unit that went out under some generation begins it with an IDR, or no unit was missed before it. */
  lemma NothingBetween(g: S.Config, h: Runs.History, log: seq<S.Act>, k: nat, u: nat)
    requires Runs.Safe(h, log, k) && Runs.Matched(h) && KeyframesHoldIdr(g.codec, h.calls)
    requires 0 < u < |h.units| && h.spans[k].from <= u < h.spans[k].to
    ensures E.IdrAt(g.codec, h.units, u) || Runs.Adjacent(h.calls, h.callOf[u - 1], h.callOf[u])
  {
    hide Runs.Adjacent, HasIdr, Runs.FreshOf;
    if h.spans[k].from == u {
      assert h.calls[h.callOf[u]] in h.calls;
    }
  }

  /** The generation under which the last packet of a unit that arrived was sent. */
  lemma SpanOf(g: S.Config, w: Runs.World, all: seq<Packet>, arrivals: seq<Arrival>, legs: seq<Leg>, u: nat)
    returns (k: nat)
    requires E.Sendable(g.codec, w.h.units) && Located(g, w, all, arrivals, legs)
    requires u < |w.h.units| && E.Arrives(legs, E.Count(g.codec, w.h.units[..u + 1]) - 1)
    ensures k < |w.h.spans| && w.h.spans[k].from <= u < w.h.spans[k].to <= |w.h.units|
  {
    hide Located, E.Count, E.Sendable, Safety.InSpan;
    var n := E.Count(g.codec, w.h.units[..u + 1]) - 1;
    var leg :| leg in legs && leg.n.Some? && leg.n.value == n;
    k := LegInSpan(g, w, all, arrivals, legs, leg);
    UnitInSpan(g, w.h, k, u);
  }

  lemma FramesAreAdjacent(g: S.Config, es: seq<S.Event>, all: seq<Packet>, arrivals: seq<Arrival>, legs: seq<Leg>,
                          u: nat)
    requires S.Configured(g)
    requires var w := Runs.Reached(g, es);
      && E.Sendable(g.codec, w.h.units) && KeyframesHoldIdr(g.codec, w.h.calls)
      && Located(g, w, all, arrivals, legs)
      && 0 < u < |w.h.units| && E.Arrives(legs, E.Count(g.codec, w.h.units[..u + 1]) - 1)
    ensures var h := Runs.Reached(g, es).h;
      && |h.units| == |h.callOf|
      && (E.IdrAt(g.codec, h.units, u) || Runs.Adjacent(h.calls, h.callOf[u - 1], h.callOf[u]))
  {
    hide Runs.Reached, Runs.Safe, Runs.Adjacent, Runs.Matched, Located, E.Count, E.Sendable, KeyframesHoldIdr, E.IdrAt,
      E.Arrives, E.Sent, Flatten;
    var w := Runs.Reached(g, es);
    var k := SpanOf(g, w, all, arrivals, legs, u);
    HistoryIsSafe(g, es, k);
    NothingBetween(g, w.h, w.s.log, k, u);
  }

  lemma CallOfUnit(h: Runs.History, u: nat)
    requires Runs.Matched(h) && u < |h.units|
    ensures |h.units| == |h.callOf| && h.callOf[u] < |h.calls| && h.calls[h.callOf[u]].unit == h.units[u]
  {
    hide Nals;
  }

  lemma CallsInOrder(h: Runs.History, u: nat, v: nat)
    requires Runs.Matched(h) && u < v < |h.units|
    ensures |h.units| == |h.callOf| && h.callOf[u] < h.callOf[v]
  {
    hide Nals;
  }

  /** A frame and the unit it is; `first` if no frame came before. */
  ghost predicate IsUnit(c: Codec, h: Runs.History, n0: int, u: nat, first: bool, f: Frame) {
    && u < |h.units| == |h.callOf| && h.callOf[u] < |h.calls|
    && (f == E.FrameOf(c, h.calls[h.callOf[u]].unit) <==> !(first && E.Inside(c, h.units, n0, u)))
    && E.Timely(h.calls[h.callOf[u]].unit, f)
  }

  /** The frames are those of the calls that brought these units, in the order of the calls, none twice. */
  ghost predicate FromCalls(c: Codec, h: Runs.History, n0: int, us: seq<nat>, frames: seq<Frame>) {
    && |us| == |frames|
    && (forall i :: 0 <= i < |us| ==> IsUnit(c, h, n0, us[i], i == 0, frames[i]))
    && (forall i, j :: 0 <= i < j < |us| ==> us[i] < us[j] < |h.callOf| && h.callOf[us[i]] < h.callOf[us[j]])
  }

  lemma {:induction false} ChainRises(c: Codec, units: seq<E.Unit>, us: seq<nat>, i: nat, j: nat)
    requires E.Chained(c, units, us) && i < j < |us|
    ensures us[i] < us[j]
    decreases j
  {
    ChainedAt(c, units, us, j);
    hide E.Chained;
    if i < j - 1 {
      ChainRises(c, units, us, i, j - 1);
    }
  }

  lemma ChainedAt(c: Codec, units: seq<E.Unit>, us: seq<nat>, i: nat)
    requires E.Chained(c, units, us) && 0 < i < |us|
    ensures us[i - 1] < us[i] && (us[i] == us[i - 1] + 1 || E.IdrAt(c, units, us[i]))
  {
    hide E.IdrAt;
  }

  lemma UnitsAreCalls(c: Codec, h: Runs.History, n0: int, us: seq<nat>, frames: seq<Frame>)
    requires Runs.Matched(h) && |us| == |frames| && (forall i :: 0 <= i < |us| ==> us[i] < |h.units|)
    requires forall i :: 0 <= i < |us| ==>
      (frames[i] == E.FrameOf(c, h.units[us[i]]) <==> !(i == 0 && E.Inside(c, h.units, n0, us[i])))
    requires forall i :: 0 <= i < |us| ==> E.Timely(h.units[us[i]], frames[i])
    requires E.Chained(c, h.units, us)
    ensures FromCalls(c, h, n0, us, frames)
  {
    hide Runs.Matched, E.FrameOf, E.Inside, E.Timely, E.Chained;
    forall i | 0 <= i < |us| ensures IsUnit(c, h, n0, us[i], i == 0, frames[i]) {
      CallOfUnit(h, us[i]);
    }
    hide IsUnit;
    forall i, j | 0 <= i < j < |us|
      ensures us[i] < us[j] < |h.callOf| && h.callOf[us[i]] < h.callOf[us[j]]
    {
      ChainRises(c, h.units, us, i, j);
      CallsInOrder(h, us[i], us[j]);
    }
  }

  /** Unit v is an IDR, or its call is the very next one after that of unit u that brought a unit. */
  ghost predicate Succeeds(c: Codec, h: Runs.History, u: nat, v: nat) {
    E.IdrAt(c, h.units, v)
    || (u < v < |h.callOf| && Runs.Adjacent(h.calls, h.callOf[u], h.callOf[v]))
  }

  lemma FrameSucceeds(g: S.Config, es: seq<S.Event>, all: seq<Packet>, arrivals: seq<Arrival>, legs: seq<Leg>,
                      u: nat, v: nat)
    requires S.Configured(g)
    requires var w := Runs.Reached(g, es);
      && E.Sendable(g.codec, w.h.units) && KeyframesHoldIdr(g.codec, w.h.calls)
      && Located(g, w, all, arrivals, legs)
      && u < v < |w.h.units| && E.Arrives(legs, E.Count(g.codec, w.h.units[..v + 1]) - 1)
      && (v == u + 1 || E.IdrAt(g.codec, w.h.units, v))
    ensures Succeeds(g.codec, Runs.Reached(g, es).h, u, v)
  {
    hide Runs.Reached, E.Sendable, KeyframesHoldIdr, Located, E.Arrives, E.Count, E.IdrAt, Runs.Adjacent;
    FramesAreAdjacent(g, es, all, arrivals, legs, v);
  }

  /**
   For every run of the streamer and every arrival, within the 16-bit window, of datagrams that it put
   on the wire: each frame the decoder is given is a unit that broadcast_video was called with, byte
   for byte unless it is the first one and reception began inside it, with its time; the frames come in the order of
   the calls, none twice; and each but the first is an IDR unit or directly follows, in the stream, the
   one given before it. If whatever broadcast_video is told is a keyframe holds an IDR, then each but
   the first is an IDR unit or the unit of the very next call, after the one before it, that brought one.
   */
  lemma DecoderSeesBroadcastUnits(g: S.Config, es: seq<S.Event>, st: Stream, arrivals: seq<Arrival>, legs: seq<Leg>)
    returns (us: seq<nat>)
    requires S.Configured(g) && st == Stream(g.ssrc, VIDEO_PAYLOAD_TYPE)
    requires var w := Runs.Reached(g, es); var all := E.Sent(g.codec, g.ssrc, w.h.units, 0);
      && E.Sendable(g.codec, w.h.units) && FromWire(w.s.log, arrivals)
      && Located(g, w, all, arrivals, legs) && InWindow(all, -1, legs) && E.FirstPlace(legs).Some?
    ensures var w := Runs.Reached(g, es); var h := w.h;
      var n0 := E.FirstPlace(legs).value;
      var frames := Looped(g.codec, st, START, TurnsOf(w.s.log, arrivals)).frames;
      && FromCalls(g.codec, h, n0, us, frames) && E.Chained(g.codec, h.units, us)
      && (KeyframesHoldIdr(g.codec, h.calls) ==> forall i :: 0 < i < |us| ==> Succeeds(g.codec, h, us[i - 1], us[i]))
  {
    hide Runs.Reached, E.Sent, InWindow, E.FirstPlace, E.FrameOf, E.Inside, E.IdrAt, E.Count, Driven, Looped, Located,
      Runs.Safe, Runs.Matched, E.Sendable, FromWire, KeyframesHoldIdr, Runs.Adjacent, E.Arrives, E.Timely, E.Chained,
      E.Joined, FromCalls, Succeeds;
    var w := Runs.Reached(g, es);
    var all := E.Sent(g.codec, g.ssrc, w.h.units, 0);
    SameRun(g, st, START, w, all, arrivals, legs);
    us := E.FramesAreSentUnits(g.codec, st, w.h.units, 0, all, legs);
    Safety.GenerationsAreSafe(g, es, 0);
    var frames := Driven(g.codec, st, all, START, legs).frames;
    UnitsAreCalls(g.codec, w.h, E.FirstPlace(legs).value, us, frames);
    if KeyframesHoldIdr(g.codec, w.h.calls) {
      forall i | 0 < i < |us| ensures Succeeds(g.codec, w.h, us[i - 1], us[i]) {
        ChainedAt(g.codec, w.h.units, us, i);
        FrameSucceeds(g, es, all, arrivals, legs, us[i - 1], us[i]);
      }
    }
  }
}
