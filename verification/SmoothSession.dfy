/**
 A whole session in which nothing stands in the way, from end to end: what broadcast_video is called with
 is what the decoder is given.
 */
module SmoothSession {
  import opened Bytes
  import opened AnnexB
  import opened Rtp
  import opened Packetizer
  import opened Depacketizer
  import opened Receiver
  import opened Channel
  import E = EndToEnd
  import L = Delivery
  import S = Server
  import Runs = ServerRuns
  import Safety = ServerSafety
  import D = ServerDelivery

  /** Datagrams that arrive one after the other. */
  function OneByOne(ps: seq<Packet>, clock: int -> int, now: int): seq<Turn> {
    if ps == [] then [] else [Turn(clock, Some(ps[0]), now)] + OneByOne(ps[1..], clock, now)
  }

  /** Receiving the packets from place a on one by one is going straight through the stream. */
  lemma {:induction false} OneByOneIsStraight(c: Codec, st: Stream, s: Recv, all: seq<Packet>, a: nat,
                                              clock: int -> int, now: int)
    requires a <= |all|
    ensures Looped(c, st, s, OneByOne(all[a..], clock, now)) ==
      Driven(c, st, all, s, L.Straight(a, |all|, clock, now))
    decreases |all| - a
  {
    hide TurnDone;
    if a < |all| {
      assert all[a..][1..] == all[a + 1..];
      var t, leg := Turn(clock, Some(all[a]), now), Leg(clock, Some(a), now);
      assert OneByOne(all[a..], clock, now) == [t] + OneByOne(all[a + 1..], clock, now);
      assert ([t] + OneByOne(all[a + 1..], clock, now))[1..] == OneByOne(all[a + 1..], clock, now);
      L.StraightBegins(a, |all|, clock, now);
      OneByOneIsStraight(c, st, TurnDone(c, st, s, t), all, a + 1, clock, now);
    }
  }

  /** The current span, once begun, ends with the last unit packetized. */
  lemma SpanIsLast(g: S.Config, s: S.State, h: Runs.History)
    requires Runs.Flowing(g, s, h) && s.streaming && !s.awaiting
    ensures var sp := Runs.LastSpan(h); sp.from < sp.to == |h.units| == |h.packets|
  {
    hide Runs.Ledger, Runs.AllSafe, Runs.Exact, Runs.Past, Runs.Adjacent, Runs.Left;
    D.LedgerSizes(g, s, h);
  }

  lemma SpanInStream(g: S.Config, s: S.State, h: Runs.History, from: nat)
    requires Runs.Ledger(g, s, h) && from <= |h.units|
    ensures var all := E.Sent(g.codec, g.ssrc, h.units, 0); var a := E.Count(g.codec, h.units[..from]);
      a <= |all| && Flatten(h.packets[from..]) == all[a..]
  {
    hide Flatten, E.Sent, E.Count, Runs.Matched, Runs.Sized, E.Parts;
    Safety.CountIsFlatten(g, h, from);
    FlattenConcat(h.packets[..from], h.packets[from..]);
    assert h.packets[..from] + h.packets[from..] == h.packets;
  }

  lemma SpannedIsRest(h: Runs.History)
    requires Runs.LastSpan(h).from <= Runs.LastSpan(h).to == |h.packets|
    ensures D.Spanned(h) == Flatten(h.packets[Runs.LastSpan(h).from..])
  {
    hide Flatten;
    var sp := Runs.LastSpan(h);
    assert h.packets[sp.from..sp.to] == h.packets[sp.from..];
  }

  lemma NothingLeft(s: S.State)
    requires s.inFlight.None? && s.queue == []
    ensures D.Carried(s) == Runs.PacketsOf(Runs.FreshOf(s.log, s.generation))
  {
    hide Runs.PacketsOf, Runs.FreshOf;
  }

  lemma LedgerOf(g: S.Config, s: S.State, h: Runs.History)
    requires Runs.Flowing(g, s, h)
    ensures Runs.Ledger(g, s, h) && S.Configured(g)
  {
  }

  /** The sender is asleep with nothing queued: what it sent under this generation ends the stream. */
  lemma AsleepSentTheRest(g: S.Config, w: Runs.World)
    requires S.Configured(g) && Safety.Inv(g, w)
    requires D.Up(w.s) && w.s.place == S.Waiting && w.s.queue == [] && !w.s.awaiting
    ensures var all := E.Sent(g.codec, g.ssrc, w.h.units, 0);
      var from := Runs.LastSpan(w.h).from;
      && from < |w.h.units| && E.Count(g.codec, w.h.units[..from]) <= |all|
      && Runs.PacketsOf(Runs.FreshOf(w.s.log, w.s.generation)) == all[E.Count(g.codec, w.h.units[..from])..]
  {
    hide Safety.Inv, Runs.Flowing, Runs.Ledger, Runs.Books, Runs.PacketsOf, Runs.FreshOf, Flatten, E.Sent, E.Count,
      D.Spanned, D.Carried;
    var h, from := w.h, Runs.LastSpan(w.h).from;
    Safety.InvMeans(g, w);
    D.InvParts(g, w);
    LedgerOf(g, w.s, h);
    SpanIsLast(g, w.s, h);
    D.CarriedIsSpanned(g, w.s, h);
    SpannedIsRest(h);
    SpanInStream(g, w.s, h, from);
    NothingLeft(w.s);
  }

  /**
   A run of the streamer that has come to rest, a keyframe having been queued since the last abandonment;
   and a client that receives what was sent under the generation, in order: its decoder is given exactly
   the units packetized since, each as broadcast_video was called with it.
   */
  lemma RestedSessionDelivers(g: S.Config, es: seq<S.Event>, st: Stream, clock: int -> int, now: int)
    requires S.Configured(g) && st == Stream(g.ssrc, VIDEO_PAYLOAD_TYPE)
    requires var w := Runs.Reached(g, es);
      && D.Up(w.s) && w.s.place == S.Waiting && w.s.queue == [] && !w.s.awaiting
      && E.Sendable(g.codec, w.h.units) && L.AllFit(w.h.units)
    ensures var w := Runs.Reached(g, es);
      var from := Runs.LastSpan(w.h).from;
      var sent := Runs.PacketsOf(Runs.FreshOf(w.s.log, w.s.generation));
      && from < |w.h.units|
      && Looped(g.codec, st, START, OneByOne(sent, clock, now)).frames ==
           L.FramesOf(g.codec, w.h.units, from, |w.h.units|)
  {
    hide Runs.Reached, Safety.Inv, E.Sent, E.Sendable, L.AllFit, Looped, Driven, L.FramesOf, D.Up, Runs.PacketsOf,
      Runs.FreshOf, E.Count, L.Straight, OneByOne;
    var w := Runs.Reached(g, es);
    Safety.AlwaysInv(g, es);
    AsleepSentTheRest(g, w);
    var all, from := E.Sent(g.codec, g.ssrc, w.h.units, 0), Runs.LastSpan(w.h).from;
    OneByOneIsStraight(g.codec, st, START, all, E.Count(g.codec, w.h.units[..from]), clock, now);
    L.PerfectChannelDeliversAll(g.codec, st, w.h.units, 0, all, clock, now, from);
  }

  lemma StillOpen(g: S.Config, es: seq<S.Event>, fs: seq<S.Event>)
    requires S.Configured(g) && D.Up(Runs.Reached(g, es).s) && D.AllSmooth(g, es, fs)
    requires !Runs.Reached(g, es).s.awaiting
    ensures !Runs.Reached(g, es + fs).s.awaiting && D.Up(Runs.Reached(g, es + fs).s)
  {
    hide Runs.Reached, D.AllSmooth, D.Up, D.Chosen;
    D.CallsChoose(g, es, fs);
    D.SpansGrow(g, es, fs);
  }

  /**
   From any reachable state with a client streaming and a keyframe sent or queued, no deadline having passed:
   the sender, left to itself, comes to rest; and then a client that receives what was sent under the
   generation, in order, has given its decoder each unit packetized since the keyframe, whole, in order.
   */
  lemma WhatIsQueuedIsShown(g: S.Config, es: seq<S.Event>, now: int, st: Stream, clock: int -> int, at: int)
    returns (fs: seq<S.Event>)
    requires S.Configured(g) && st == Stream(g.ssrc, VIDEO_PAYLOAD_TYPE)
    requires var w := Runs.Reached(g, es);
      D.Up(w.s) && !w.s.awaiting && w.h.clock <= now && D.InTimeStill(w.s, now)
    ensures D.OfSenderOnly(fs)
    ensures var w := Runs.Reached(g, es + fs);
      D.AtRest(w.s) && (E.Sendable(g.codec, w.h.units) && L.AllFit(w.h.units) ==>
        var from := Runs.LastSpan(w.h).from;
        var sent := Runs.PacketsOf(Runs.FreshOf(w.s.log, w.s.generation));
        && from < |w.h.units|
        && Looped(g.codec, st, START, OneByOne(sent, clock, at)).frames ==
             L.FramesOf(g.codec, w.h.units, from, |w.h.units|))
  {
    hide Runs.Reached, E.Sendable, L.AllFit, Looped, L.FramesOf, D.Up, D.InTimeStill, D.AllSmooth, Runs.PacketsOf,
      Runs.FreshOf, OneByOne, D.Owed, D.Resent, D.InHand, D.Wanted, Runs.Left, Runs.Backlog;
    fs := D.EverythingQueuedIsSent(g, es, now);
    StillOpen(g, es, fs);
    var w := Runs.Reached(g, es + fs);
    if E.Sendable(g.codec, w.h.units) && L.AllFit(w.h.units) {
      RestedSessionDelivers(g, es + fs, st, clock, at);
    }
  }
}
