/**
 Clients coming and going, the streamer stopping, and the time a unit is given: what the regions of
 connecting, READY, disconnecting, stopping and capturing come to over whole runs.
 */
module ServerLife {
  import opened Bytes
  import opened AnnexB
  import opened Rtp
  import opened Packetizer
  import R = Retransmit
  import opened Server
  import opened ServerRuns
  import opened ServerRepairs
  import opened ServerSafety
  import D = ServerDelivery

  predicate Taken(w: World, e: Event) {
    Enabled(w.s, e) && OnTime(w.h.clock, e)
  }

  // ------------------------------------------------------------------ to whom it is sent

  /** The client's standing and the streamer's own are as before. */
  predicate SameStanding(s: State, s': State) {
    s'.streaming == s.streaming && s'.connected == s.connected && s'.running == s.running && s'.resetDue == s.resetDue
  }

  lemma AbandonedStanding(s: State)
    ensures SameStanding(s, Abandoned(s))
  {
  }

  lemma AdmittedStanding(s: State, ps: seq<Packet>, deadline: int, keyframe: bool)
    ensures SameStanding(s, Admitted(s, ps, deadline, keyframe))
  {
  }

  lemma OfferedStanding(g: Config, s: State, e: Event)
    requires e.Offer?
    ensures SameStanding(s, Offered(g, s, e.data, e.ptsUsec, e.keyframe, e.now))
  {
    hide PacketsFor, Overdue, Abandoned, Admitted;
    if s.capture.Some? {
      var ps := PacketsFor(g, s, e.data, e.ptsUsec);
      var s1 := s.(capture := None, seqNo := (s.seqNo + |ps|) % TWO16);
      AbandonedStanding(s1);
      AdmittedStanding(s1, ps, s.capture.value, e.keyframe);
      AdmittedStanding(Abandoned(s1), ps, s.capture.value, e.keyframe);
    }
  }

  lemma FreshStanding(s: State, f: InFlight, granted: bool, now: int, accepted: bool, recordedAt: int)
    requires f.next < |f.frame.packets|
    ensures SameStanding(s, FreshTried(s, f, granted, now, accepted, recordedAt))
  {
    hide R.Recorded;
  }

  lemma SenderStanding(g: Config, s: State, e: Event)
    requires Enabled(s, e) && (OfSender(e) || e.TakeFrame?)
    ensures SameStanding(s, Done(g, s, e))
  {
    hide Sendable, Offered, FreshTried, Requested, Voiced;
  }

  lemma RequestStanding(s: State, video: bool, seqNo: int, now: int)
    ensures SameStanding(s, Requested(s, video, seqNo, now))
  {
    hide R.Retained, Queued;
  }

  lemma VoicedStanding(s: State, p: Packet, accepted: bool, now: int)
    ensures SameStanding(s, Voiced(s, p, accepted, now))
  {
    hide R.Recorded;
  }

  /** The steps of connecting, disconnecting, READY and stopping. */
  predicate OfSignaling(e: Event) {
    e.Detach? || e.Reset? || e.Announce? || e.Stop?
  }

  lemma StandingKept(g: Config, s: State, e: Event)
    requires Enabled(s, e) && !OfSignaling(e)
    ensures SameStanding(s, Done(g, s, e))
  {
    hide SameStanding, Offered, FreshTried, Requested, Voiced, Woken, RepairTaken, RepairTried, FrameTaken, Advanced;
    match e
    case Offer(_, _, _, _) => OfferedStanding(g, s, e);
    case TryFresh(granted, now, accepted, recordedAt) =>
      FreshStanding(s, s.inFlight.value, granted, now, accepted, recordedAt);
    case Request(video, seqNo, now) => RequestStanding(s, video, seqNo, now);
    case Voice(p, accepted, now) => VoicedStanding(s, p, accepted, now);
    case BeginCapture(_) => CaptureStanding(g, s, e);
    case _ => SenderStanding(g, s, e);
  }

  lemma CaptureStanding(g: Config, s: State, e: Event)
    requires e.BeginCapture? && Enabled(s, e)
    ensures SameStanding(s, Done(g, s, e))
  {
  }

  /** The streamer streams only to a client that is connected, and not before the queues have been reset. */
  lemma {:induction false} StreamingNeedsAPeer(g: Config, es: seq<Event>)
    ensures var s := Reached(g, es).s; s.streaming ==> s.connected && !s.resetDue
  {
    if es != [] {
      var before, e := es[..|es| - 1], es[|es| - 1];
      StreamingNeedsAPeer(g, before);
      var w := Reached(g, before);
      hide Reached, Observed, Offered, Voiced, Requested, FreshTried, FrameTaken, Advanced, RepairTried, RepairTaken,
        Woken;
      if Taken(w, e) && !OfSignaling(e) {
        StandingKept(g, w.s, e);
      }
    }
  }

  /** A client that connects and says READY is streamed to, whatever came before, once the last reset is done. */
  lemma ReadyStartsStreaming(g: Config, es: seq<Event>)
    requires !Reached(g, es).s.resetDue
    ensures var s, s' := Reached(g, es).s, Reached(g, es + [Detach(true), Reset, Announce]).s;
      && s'.streaming && s'.running == s.running && s'.queue == [] && s'.repairs == []
      && s'.awaiting && s'.generation == s.generation + 1
  {
    hide Reached;
    var a, b, c := Detach(true), Event.Reset, Event.Announce;
    D.ReachedSnoc(g, es, [a]);
    D.ReachedSnoc(g, es, [a, b]);
    D.ReachedSnoc(g, es, [a, b, c]);
    assert es + [] == es && [a][..0] == [] && [a, b][..1] == [a] && [a, b, c][..2] == [a, b];
  }

  // ------------------------------------------------------------------ silence

  /** What reached the socket: packets of frames, and repairs. */
  function Sent(log: seq<Act>): seq<Packet> {
    if log == [] then []
    else
      var a := log[|log| - 1];
      Sent(log[..|log| - 1]) + if a.Fresh? || a.sent then [a.packet] else []
  }

  lemma SentSnoc(log: seq<Act>, a: Act)
    ensures Sent(log + [a]) == Sent(log) + if a.Fresh? || a.sent then [a.packet] else []
  {
    assert (log + [a])[..|log|] == log;
  }

  /** Steps that send nothing whatever they find. */
  lemma LogKept(g: Config, s: State, e: Event)
    requires Enabled(s, e) && !e.TryFresh? && !e.TryRepair?
    ensures Done(g, s, e).log == s.log
  {
    hide R.Recorded, R.Retained, Queued, Offered;
    if e.Offer? {
      OfferedLog(g, s, e);
    }
  }

  lemma DetachedSendsNothing(g: Config, s: State, e: Event)
    requires Enabled(s, e) && !s.streaming
    ensures Sent(Done(g, s, e).log) == Sent(s.log)
  {
    if e.TryRepair? {
      SentSnoc(s.log, Done(g, s, e).log[|s.log|]);
    } else if !e.TryFresh? {
      hide Done;
      LogKept(g, s, e);
    }
  }

  predicate NoReady(es: seq<Event>) {
    forall i :: 0 <= i < |es| ==> !es[i].Announce?
  }

  /** From a disconnect to the next READY nothing is sent, whatever the threads were in the middle of. */
  lemma {:induction false} SilentWhileDetached(g: Config, es: seq<Event>, fs: seq<Event>)
    requires !Reached(g, es).s.streaming && NoReady(fs)
    ensures var s, s' := Reached(g, es).s, Reached(g, es + fs).s;
      !s'.streaming && Sent(s'.log) == Sent(s.log)
    decreases |fs|
  {
    hide Reached, Done, Sent;
    if fs == [] {
      assert es + fs == es;
    } else {
      var e := fs[|fs| - 1];
      var w1 := Reached(g, es + fs[..|fs| - 1]);
      SilentWhileDetached(g, es, fs[..|fs| - 1]);
      D.ReachedSnoc(g, es, fs);
      if Taken(w1, e) {
        DetachedSendsNothing(g, w1.s, e);
        DetachedStays(g, w1.s, e);
      }
    }
  }

  lemma DetachedStays(g: Config, s: State, e: Event)
    requires Enabled(s, e) && !s.streaming && !e.Announce?
    ensures !Done(g, s, e).streaming
  {
    hide Offered, FreshTried, Requested, Voiced, Woken, RepairTaken, RepairTried, FrameTaken, Advanced;
    if !OfSignaling(e) {
      StandingKept(g, s, e);
    }
  }

  // ------------------------------------------------------------------ stopping

  /** What the sender may still try once it has been told to end: the repair in hand, and one packet. */
  function StillToTry(s: State): nat {
    match s.place
    case Holding(_, _) => if s.inFlight.Some? then 2 else 1
    case Repairing(_) => if s.inFlight.Some? then 1 else 0
    case Repaired => if s.inFlight.Some? then 1 else 0
    case _ => 0
  }

  lemma StoppedFresh(s: State, f: InFlight, granted: bool, now: int, accepted: bool, recordedAt: int)
    requires s.place == Repaired && s.inFlight == Some(f) && f.next < |f.frame.packets|
    ensures var s' := FreshTried(s, f, granted, now, accepted, recordedAt);
      |s'.log| + StillToTry(s') <= |s.log| + StillToTry(s)
  {
    hide R.Recorded;
  }

  lemma StoppedSender(g: Config, s: State, e: Event)
    requires Enabled(s, e) && !s.running && (OfSender(e) || e.TakeFrame?)
    ensures var s' := Done(g, s, e); |s'.log| + StillToTry(s') <= |s.log| + StillToTry(s)
  {
    hide Sendable, Offered, FreshTried, Requested, Voiced;
  }

  lemma PlaceKept(g: Config, s: State, e: Event)
    requires Enabled(s, e) && !OfSender(e) && !e.TakeFrame? && !e.TryFresh?
    ensures var s' := Done(g, s, e); s'.place == s.place && s'.inFlight == s.inFlight && s'.log == s.log
  {
    hide Enqueued, PacketsFor, R.Recorded, R.Retained, Queued;
    if e.Offer? {
      var ps := PacketsFor(g, s, e.data, e.ptsUsec);
      EnqueuedKeeps(s.(capture := None, seqNo := (s.seqNo + |ps|) % TWO16), ps, s.capture.value, e.keyframe, e.now);
    }
  }

  lemma StoppedStep(g: Config, s: State, e: Event)
    requires Enabled(s, e) && !s.running
    ensures var s' := Done(g, s, e); !s'.running && |s'.log| + StillToTry(s') <= |s.log| + StillToTry(s)
  {
    hide Offered, FreshTried, Requested, Voiced, Woken, RepairTaken, RepairTried, FrameTaken, Advanced, StillToTry;
    if !OfSignaling(e) {
      StandingKept(g, s, e);
    }
    if e.TryFresh? {
      StoppedFresh(s, s.inFlight.value, e.granted, e.now, e.accepted, e.recordedAt);
    } else if OfSender(e) || e.TakeFrame? {
      StoppedSender(g, s, e);
    } else {
      PlaceKept(g, s, e);
      SameToTry(s, Done(g, s, e));
    }
  }

  lemma SameToTry(s: State, s': State)
    requires s'.place == s.place && s'.inFlight == s.inFlight
    ensures StillToTry(s') == StillToTry(s)
  {
  }

  lemma {:induction false} StoppedRun(g: Config, es: seq<Event>, fs: seq<Event>)
    requires !Reached(g, es).s.running
    ensures var s, s' := Reached(g, es).s, Reached(g, es + fs).s;
      !s'.running && |s'.log| + StillToTry(s') <= |s.log| + StillToTry(s)
    decreases |fs|
  {
    hide Reached, Done, StillToTry;
    if fs == [] {
      assert es + fs == es;
    } else {
      var e := fs[|fs| - 1];
      var w1 := Reached(g, es + fs[..|fs| - 1]);
      StoppedRun(g, es, fs[..|fs| - 1]);
      D.ReachedSnoc(g, es, fs);
      if Taken(w1, e) {
        StoppedStep(g, w1.s, e);
      }
    }
  }

  /** Once the streamer has been told to stop, the sender tries at most two packets more: never another after them. */
  lemma StoppedSenderEnds(g: Config, es: seq<Event>, fs: seq<Event>)
    ensures var s, s' := Reached(g, es + [Stop]).s, Reached(g, es + [Stop] + fs).s;
      !s'.running && |s'.log| <= |s.log| + 2
  {
    hide Reached, StillToTry;
    D.ReachedSnoc(g, es, [Stop]);
    assert es + [Stop][..0] == es;
    StoppedRun(g, es + [Stop], fs);
    AtMostTwo(Reached(g, es + [Stop]).s);
  }

  lemma AtMostTwo(s: State)
    ensures StillToTry(s) <= 2
  {
  }

  // ------------------------------------------------------------------ the time a unit is given

  predicate NoOffers(es: seq<Event>) {
    forall i :: 0 <= i < |es| ==> !es[i].Offer?
  }

  lemma SenderCapture(g: Config, s: State, e: Event)
    requires Enabled(s, e) && (OfSender(e) || e.TakeFrame?)
    ensures Done(g, s, e).capture == s.capture
  {
    hide RepairTried, Offered, FreshTried, Requested, Voiced, Woken, RepairTaken, FrameTaken, Advanced;
    if e.TryRepair? {
      RepairTriedCapture(s, s.place.tried, s.place.repair, e.granted, e.now, e.accepted);
    } else if e.Wake? {
      WokenCapture(s);
    } else if e.TakeRepair? {
      RepairTakenCapture(s, s.place.tried);
    } else if e.TakeFrame? {
      FrameTakenCapture(s);
    } else {
      AdvancedCapture(s, s.inFlight.value);
    }
  }

  lemma RepairTriedCapture(s: State, tried: nat, r: RepairPacket, granted: bool, now: int, accepted: bool)
    ensures RepairTried(s, tried, r, granted, now, accepted).capture == s.capture
  {
  }

  lemma WokenCapture(s: State)
    ensures Woken(s).capture == s.capture
  {
  }

  lemma RepairTakenCapture(s: State, tried: nat)
    ensures RepairTaken(s, tried).capture == s.capture
  {
  }

  lemma FrameTakenCapture(s: State)
    ensures FrameTaken(s).capture == s.capture
  {
  }

  lemma AdvancedCapture(s: State, f: InFlight)
    ensures Advanced(s, f).capture == s.capture
  {
  }

  lemma FreshCapture(s: State, f: InFlight, granted: bool, now: int, accepted: bool, recordedAt: int)
    requires f.next < |f.frame.packets|
    ensures FreshTried(s, f, granted, now, accepted, recordedAt).capture == s.capture
  {
    hide R.Recorded;
  }

  lemma RequestCapture(s: State, video: bool, seqNo: int, now: int)
    ensures Requested(s, video, seqNo, now).capture == s.capture
  {
    hide R.Retained, Queued;
  }

  lemma CaptureKept(g: Config, s: State, e: Event)
    requires Enabled(s, e) && !e.Offer? && s.capture.Some?
    ensures Done(g, s, e).capture == s.capture
  {
    hide R.Recorded, Offered, FreshTried, Requested, Woken, RepairTaken, RepairTried, FrameTaken, Advanced;
    if OfSender(e) || e.TakeFrame? {
      SenderCapture(g, s, e);
    } else if e.TryFresh? {
      FreshCapture(s, s.inFlight.value, e.granted, e.now, e.accepted, e.recordedAt);
    } else if e.Request? {
      RequestCapture(s, e.video, e.seqNo, e.now);
    }
  }

  lemma {:induction false} CaptureStays(g: Config, es: seq<Event>, fs: seq<Event>)
    requires Reached(g, es).s.capture.Some? && NoOffers(fs)
    ensures Reached(g, es + fs).s.capture == Reached(g, es).s.capture
    decreases |fs|
  {
    hide Reached, Done;
    if fs == [] {
      assert es + fs == es;
    } else {
      var e := fs[|fs| - 1];
      var w1 := Reached(g, es + fs[..|fs| - 1]);
      CaptureStays(g, es, fs[..|fs| - 1]);
      D.ReachedSnoc(g, es, fs);
      if Taken(w1, e) {
        CaptureKept(g, w1.s, e);
      }
    }
  }

  lemma QueuedWithCapture(g: Config, s: State, e: Event)
    requires e.Offer? && Enabled(s, e)
    ensures forall f :: f in Done(g, s, e).queue ==> f in s.queue || f.deadline == s.capture.value
  {
    hide PacketsFor;
  }

  /**
   A unit whose call read the clock at t before taking the locks has until t + 100 ms: whatever the other
   threads do meanwhile, it is queued, if at all, with that deadline.
   */
  lemma UnitsHaveTheirTime(g: Config, es: seq<Event>, t: int, fs: seq<Event>, e: Event)
    requires Taken(Reached(g, es), BeginCapture(t)) && NoOffers(fs) && e.Offer?
    ensures var w := Reached(g, es + [BeginCapture(t)] + fs);
      && w.s.capture == Some(t + 100)
      && forall f :: f in Next(g, w, e).s.queue ==> f in w.s.queue || f.deadline == t + 100
  {
    hide Reached;
    D.ReachedSnoc(g, es, [BeginCapture(t)]);
    assert es + [BeginCapture(t)][..0] == es;
    CaptureStays(g, es + [BeginCapture(t)], fs);
    var w := Reached(g, es + [BeginCapture(t)] + fs);
    hide Done;
    if Taken(w, e) {
      QueuedWithCapture(g, w.s, e);
    }
  }

  // ------------------------------------------------------------------ audio

  /** The audio packets that the socket took while streaming, since the queues were last reset. */
  ghost function VoicedSince(g: Config, es: seq<Event>): seq<R.Record> {
    if es == [] then []
    else
      var before, e := VoicedSince(g, es[..|es| - 1]), es[|es| - 1];
      var w := Reached(g, es[..|es| - 1]);
      if Taken(w, e) && e.Reset? then []
      else if Taken(w, e) && e.Voice? && e.accepted && w.s.streaming then
        before + [R.Record(NumberOf(e.packet), R.Entry(e.packet, e.now))]
      else before
  }

  lemma AudioKept(g: Config, s: State, e: Event)
    requires Enabled(s, e) && !e.Voice? && !e.Reset?
    ensures Done(g, s, e).audio == s.audio
  {
    hide R.Recorded, R.Retained, Queued, Sendable, PacketsFor, Enqueued;
    if e.Offer? {
      var ps := PacketsFor(g, s, e.data, e.ptsUsec);
      var s1 := s.(capture := None, seqNo := (s.seqNo + |ps|) % TWO16);
      EnqueuedAudio(s1, ps, s.capture.value, e.keyframe, e.now);
    }
  }

  lemma EnqueuedAudio(s: State, ps: seq<Packet>, deadline: int, keyframe: bool, now: int)
    ensures Enqueued(s, ps, deadline, keyframe, now).audio == s.audio
  {
    hide Overdue;
  }

  /** The audio cache is what recording those packets leaves: the last 512 of them. */
  lemma {:induction false} AudioCacheIsWhatWasVoiced(g: Config, es: seq<Event>)
    ensures Reached(g, es).s.audio == R.After(512, VoicedSince(g, es))
  {
    if es != [] {
      var before, e := es[..|es| - 1], es[|es| - 1];
      AudioCacheIsWhatWasVoiced(g, before);
      var w := Reached(g, before);
      hide Reached, Observed;
      if Taken(w, e) {
        if e.Voice? {
          var r := R.Record(NumberOf(e.packet), R.Entry(e.packet, e.now));
          assert (VoicedSince(g, before) + [r])[..|VoicedSince(g, before)|] == VoicedSince(g, before);
        } else if !e.Reset? {
          AudioKept(g, w.s, e);
          hide Done;
        }
      }
    }
  }
}
