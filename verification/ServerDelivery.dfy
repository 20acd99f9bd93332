/**
 What the streamer's sender does get out. ServerSafety bounds what is sent; here nothing stands in its
 way: the pacer grants, the socket takes, no deadline has passed, the queue has room and no client comes
 or goes. Then nothing queued is ever abandoned, and all of it is sent, in order, each repair included.
 */
module ServerDelivery {
  import opened Bytes
  import opened AnnexB
  import opened Rtp
  import opened Packetizer
  import R = Retransmit
  import opened Server
  import opened ServerRuns
  import opened ServerRepairs
  import opened ServerSafety
  import E = EndToEnd

  /** Nothing stands in the way of this step, if it is taken at all. */
  ghost predicate Smooth(g: Config, w: World, e: Event) {
    Enabled(w.s, e) && OnTime(w.h.clock, e) ==> Unhindered(g, w.s, e)
  }

  ghost predicate Unhindered(g: Config, s: State, e: Event)
    requires Enabled(s, e)
  {
    match e
    case Detach(_) => false
    case Reset => false
    case Stop => false
    case Offer(data, ptsUsec, _, now) =>
      && (s.queue != [] ==> now < s.queue[0].deadline)
      && s.queued + |PacketsFor(g, s, data, ptsUsec)| <= 4096
    case TryRepair(granted, now, accepted) =>
      s.place.repair.generation == s.generation ==> granted && accepted && now < s.place.repair.deadline
    case TryFresh(granted, now, accepted, _) =>
      s.inFlight.value.frame.generation == s.generation ==>
        granted && accepted && now < s.inFlight.value.frame.deadline
    case _ => true
  }

  ghost predicate AllSmooth(g: Config, es: seq<Event>, fs: seq<Event>) {
    fs == [] || (AllSmooth(g, es, fs[..|fs| - 1]) && Smooth(g, Reached(g, es + fs[..|fs| - 1]), fs[|fs| - 1]))
  }

  predicate Up(s: State) {
    s.streaming && s.running
  }

  /** The packets of this generation: sent, in flight and queued. */
  function Carried(s: State): seq<Packet> {
    PacketsOf(FreshOf(s.log, s.generation)) + Left(s.inFlight, s.generation) + Backlog(s.queue)
  }

  // ------------------------------------------------------------------ the generation survives

  lemma OfferSurvives(g: Config, s: State, e: Event)
    requires e.Offer? && Enabled(s, e) && Unhindered(g, s, e) && s.queued >= 0 && Up(s)
    ensures var s' := Done(g, s, e);
      && s'.generation == s.generation && Up(s')
      && (Took(g, s, e) ==> !s'.awaiting)
  {
    hide PacketsFor, Took;
    var ps := PacketsFor(g, s, e.data, e.ptsUsec);
    var s1 := s.(capture := None, seqNo := (s.seqNo + |ps|) % TWO16);
    assert !Overdue(s1, |ps|, e.now);
    assert Took(g, s, e) <==> Accepting(s, e.keyframe) && ps != [] by { TookMeans(g, s, e); }
    hide Overdue;
    AdmittedStays(s1, ps, s.capture.value, e.keyframe);
  }

  lemma TookMeans(g: Config, s: State, e: Event)
    requires e.Offer? && s.capture.Some?
    ensures Took(g, s, e) <==> Accepting(s, e.keyframe) && PacketsFor(g, s, e.data, e.ptsUsec) != []
  {
  }

  lemma AdmittedStays(s: State, ps: seq<Packet>, deadline: int, keyframe: bool)
    ensures var s' := Admitted(s, ps, deadline, keyframe);
      && s'.generation == s.generation && s'.streaming == s.streaming && s'.running == s.running
      && ((!s.awaiting || keyframe) && |ps| <= MAX_QUEUED ==> !s'.awaiting)
  {
  }

  lemma FreshSurvives(g: Config, s: State, e: Event)
    requires e.TryFresh? && Enabled(s, e) && Unhindered(g, s, e) && Up(s)
    ensures var s' := Done(g, s, e); s'.generation == s.generation && Up(s')
  {
    hide R.Recorded, Abandoned;
  }

  lemma OtherSurvives(g: Config, s: State, e: Event)
    requires Enabled(s, e) && Unhindered(g, s, e) && Up(s) && !e.Offer? && !e.TryFresh?
    ensures var s' := Done(g, s, e); s'.generation == s.generation && Up(s')
  {
    hide R.Recorded, R.Retained, Queued, Sendable;
  }

  lemma StepSurvives(g: Config, s: State, e: Event)
    requires Enabled(s, e) && Unhindered(g, s, e) && s.queued >= 0 && Up(s)
    ensures var s' := Done(g, s, e);
      && s'.generation == s.generation && Up(s')
      && (Took(g, s, e) ==> !s'.awaiting)
  {
    hide Unhindered, Done, Up;
    if e.Offer? {
      OfferSurvives(g, s, e);
    } else if e.TryFresh? {
      FreshSurvives(g, s, e);
    } else {
      OtherSurvives(g, s, e);
    }
  }

  /** The packets of the units queued under the current generation. */
  ghost function Spanned(h: History): seq<Packet> {
    var sp := LastSpan(h);
    if sp.from <= sp.to <= |h.packets| then Flatten(h.packets[sp.from..sp.to]) else []
  }

  /** What this step packetized. */
  ghost function Made(h: History, h': History): seq<Packet> {
    if |h.packets| <= |h'.packets| then Flatten(h'.packets[|h.packets|..]) else []
  }

  lemma QuietHistory(g: Config, s: State, h: History, e: Event, s': State)
    requires !Took(g, s, e) && s'.generation == s.generation
    ensures var h' := Observed(g, s, h, e, s'); h'.packets == h.packets && h'.spans == h.spans
  {
    hide Took;
  }

  lemma TookHistory(g: Config, s: State, h: History, e: Event, s': State)
    requires Took(g, s, e) && s'.generation == s.generation && !s'.awaiting && h.spans != []
    ensures Observed(g, s, h, e, s') ==
      Noted(h.(clock := e.now), E.Unit(e.data, e.ptsUsec), e.keyframe, PacketsFor(g, s, e.data, e.ptsUsec))
        .(spans := Extended(h.spans, |h.units|))
  {
    hide PacketsFor, Extended;
  }

  /** The current span takes the next unit, if flagged so. */
  ghost predicate Growing(h: History, key: bool) {
    var sp := LastSpan(h);
    && h.spans != [] && |h.units| == |h.callOf| == |h.packets|
    && Consecutive(h, sp)
    && (sp.from == sp.to ==> key)
    && (sp.from < sp.to ==> sp.to == |h.units| && Adjacent(h.calls, h.callOf[sp.to - 1], |h.calls|))
    && Grown(h, h)
  }

  lemma SpanIsSafe(s: State, h: History)
    requires AllSafe(s, h) && |h.spans| == s.generation + 1
    ensures Consecutive(h, LastSpan(h))
  {
    assert Safe(h, s.log, s.generation);
  }

  lemma GateGrows(s: State, h: History, key: bool)
    requires Gate(s, h) && Accepting(s, key)
    ensures var sp := LastSpan(h);
      && (sp.from == sp.to ==> key)
      && (sp.from < sp.to ==> sp.to == |h.units| && Adjacent(h.calls, h.callOf[sp.to - 1], |h.calls|))
      && |h.spans| == s.generation + 1
  {
    hide Adjacent, Left;
  }

  lemma SpanIsGrowing(g: Config, s: State, h: History, key: bool)
    requires Flowing(g, s, h) && Accepting(s, key)
    ensures Growing(h, key)
  {
    hide Exact, AllSafe, Past, Gate, Ledger, Consecutive, Adjacent, Grown;
    LedgerMeans(g, s, h);
    LedgerSizes(g, s, h);
    GateGrows(s, h, key);
    SpanIsSafe(s, h);
  }

  lemma LedgerSizes(g: Config, s: State, h: History)
    requires Ledger(g, s, h)
    ensures |h.units| == |h.callOf| == |h.packets|
  {
  }

  lemma SpannedGrows(h: History, u: Unit, key: bool, ps: seq<Packet>, h': History)
    requires Growing(h, key) && h' == Noted(h, u, key, ps).(spans := Extended(h.spans, |h.units|))
    ensures Spanned(h') == Spanned(h) + Made(h, h') && h.packets <= h'.packets
  {
    SpanPushed(h, u, key, ps, h');
    assert h'.packets[|h.packets|..] == [ps];
    assert Flatten([ps]) == ps;
    assert LastSpan(h).from <= LastSpan(h).to <= |h.packets|;
    hide Flatten, Adjacent, Extended, Grown;
    assert Consecutive(h', LastSpan(h'));
  }

  lemma StepSpans(g: Config, w: World, e: Event)
    requires Flowing(g, w.s, w.h) && Enabled(w.s, e) && OnTime(w.h.clock, e)
    requires Done(g, w.s, e).generation == w.s.generation && (Took(g, w.s, e) ==> !Done(g, w.s, e).awaiting)
    ensures var h' := Next(g, w, e).h;
      Spanned(h') == Spanned(w.h) + Made(w.h, h') && w.h.packets <= h'.packets
  {
    hide Flowing, Done, Took, Observed, PacketsFor, Noted, Extended, Growing, Spanned, Made;
    var s', h' := Done(g, w.s, e), Next(g, w, e).h;
    if Took(g, w.s, e) {
      TookOffer(g, w.s, e);
      SpanIsGrowing(g, w.s, w.h, e.keyframe);
      GrowingStill(w.h, e.keyframe, e.now);
      TookHistory(g, w.s, w.h, e, s');
      var h0, ps := w.h.(clock := e.now), PacketsFor(g, w.s, e.data, e.ptsUsec);
      SpannedGrows(h0, E.Unit(e.data, e.ptsUsec), e.keyframe, ps, h');
      ClockApart(w.h, h0, h');
    } else {
      QuietHistory(g, w.s, w.h, e, s');
      QuietSpans(w.h, h');
    }
  }

  lemma GrowingStill(h: History, key: bool, clock: int)
    requires Growing(h, key)
    ensures h.spans != [] && Growing(h.(clock := clock), key)
  {
    hide Adjacent;
  }

  lemma TookOffer(g: Config, s: State, e: Event)
    requires Took(g, s, e)
    ensures e.Offer? && Accepting(s, e.keyframe)
  {
  }

  lemma ClockApart(h: History, h0: History, h': History)
    requires h0 == h.(clock := h0.clock)
    ensures Spanned(h0) == Spanned(h) && Made(h0, h') == Made(h, h')
  {
  }

  lemma QuietSpans(h: History, h': History)
    requires h'.packets == h.packets && h'.spans == h.spans
    ensures Spanned(h') == Spanned(h) + Made(h, h')
  {
    assert h.packets[|h.packets|..] == [];
  }

  // ------------------------------------------------------------------ whole continuations

  lemma CarriedIsSpanned(g: Config, s: State, h: History)
    requires Flowing(g, s, h) && Up(s)
    ensures Carried(s) == Spanned(h)
  {
    hide Ledger, AllSafe, Flatten, FreshOf, Left, Backlog, PacketsOf, Past;
    LedgerSpan(g, s, h);
  }

  lemma LedgerSpan(g: Config, s: State, h: History)
    requires Ledger(g, s, h) && Gate(s, h)
    ensures LastSpan(h).from <= LastSpan(h).to <= |h.packets|
  {
  }

  lemma MadeConcat(h: History, h1: History, h2: History)
    requires h.packets <= h1.packets <= h2.packets
    ensures Made(h, h2) == Made(h, h1) + Made(h1, h2)
  {
    FlattenConcat(h1.packets[|h.packets|..], h2.packets[|h1.packets|..]);
    assert h2.packets[|h.packets|..] == h1.packets[|h.packets|..] + h2.packets[|h1.packets|..];
  }

  lemma ReachedSnoc(g: Config, es: seq<Event>, fs: seq<Event>)
    requires fs != []
    ensures Reached(g, es + fs) == Next(g, Reached(g, es + fs[..|fs| - 1]), fs[|fs| - 1])
  {
    hide Next;
    assert (es + fs)[..|es + fs| - 1] == es + fs[..|fs| - 1];
  }

  lemma InvParts(g: Config, w: World)
    requires Inv(g, w)
    ensures Flowing(g, w.s, w.h) && Books(w.s, w.h.clock) && Repairable(w.s) && w.s.queued >= 0
  {
    hide Flowing, Repairable, Turns, InTime;
    BooksMeans(w.s, w.h.clock);
  }

  /** One step of a continuation. */
  lemma StepGrows(g: Config, w: World, e: Event)
    requires Inv(g, w) && Up(w.s) && Smooth(g, w, e)
    ensures var w' := Next(g, w, e);
      && w'.s.generation == w.s.generation && Up(w'.s)
      && Spanned(w'.h) == Spanned(w.h) + Made(w.h, w'.h) && w.h.packets <= w'.h.packets
  {
    hide Inv, Unhindered, Up, Done, Took, Flowing, Books, Spanned, Made;
    InvParts(g, w);
    if Enabled(w.s, e) && OnTime(w.h.clock, e) {
      StepSurvives(g, w.s, e);
      StepSpans(g, w, e);
    } else {
      QuietSpans(w.h, w.h);
    }
  }

  lemma {:induction false} SpansGrow(g: Config, es: seq<Event>, fs: seq<Event>)
    requires Configured(g) && Up(Reached(g, es).s) && AllSmooth(g, es, fs)
    ensures var w, w' := Reached(g, es), Reached(g, es + fs);
      && w'.s.generation == w.s.generation && Up(w'.s)
      && Spanned(w'.h) == Spanned(w.h) + Made(w.h, w'.h) && w.h.packets <= w'.h.packets
    decreases |fs|
  {
    hide Reached, Smooth, Inv, Up, Spanned, Made;
    var w := Reached(g, es);
    if fs == [] {
      assert es + fs == es;
      QuietSpans(w.h, w.h);
    } else {
      var w1 := Reached(g, es + fs[..|fs| - 1]);
      SpansGrow(g, es, fs[..|fs| - 1]);
      ReachedSnoc(g, es, fs);
      AlwaysInv(g, es + fs[..|fs| - 1]);
      StepGrows(g, w1, fs[|fs| - 1]);
      var w' := Reached(g, es + fs);
      MadeConcat(w.h, w1.h, w'.h);
      ConcatAssociates(Spanned(w.h), Made(w.h, w1.h), Made(w1.h, w'.h));
    }
  }

  /**
   From any reachable state with a client streaming, and over any steps of any threads with nothing in
   the way: the generation stays, and what is sent, in flight and queued gains exactly the packets of the
   units packetized on the way. Nothing is abandoned and nothing is lost.
   */
  lemma NothingIsAbandoned(g: Config, es: seq<Event>, fs: seq<Event>)
    requires Configured(g) && Up(Reached(g, es).s) && AllSmooth(g, es, fs)
    ensures var w, w' := Reached(g, es), Reached(g, es + fs);
      && w'.s.generation == w.s.generation && Up(w'.s) && w.h.packets <= w'.h.packets
      && Carried(w'.s) == Carried(w.s) + Flatten(w'.h.packets[|w.h.packets|..])
  {
    hide Reached, AllSmooth, Inv, Up, Spanned, Carried, Flatten;
    SpansGrow(g, es, fs);
    AlwaysInv(g, es);
    AlwaysInv(g, es + fs);
    InvParts(g, Reached(g, es));
    InvParts(g, Reached(g, es + fs));
    CarriedIsSpanned(g, Reached(g, es).s, Reached(g, es).h);
    CarriedIsSpanned(g, Reached(g, es + fs).s, Reached(g, es + fs).h);
  }

  // ------------------------------------------------------------------ repairs

  function Resent(log: seq<Act>): seq<Packet> {
    if log == [] then []
    else
      var a := log[|log| - 1];
      Resent(log[..|log| - 1]) + if a.Repair? && a.sent then [a.packet] else []
  }

  function Wanted(repairs: seq<RepairPacket>): seq<Packet> {
    if repairs == [] then [] else [repairs[0].packet] + Wanted(repairs[1..])
  }

  /** The repair in hand, unless its generation has gone. */
  function InHand(s: State): seq<Packet> {
    if s.place.Holding? && s.place.repair.generation == s.generation then [s.place.repair.packet] else []
  }

  /** The repairs sent, in hand and waiting. */
  function Owed(s: State): seq<Packet> {
    Resent(s.log) + InHand(s) + Wanted(s.repairs)
  }

  lemma ResentSnoc(log: seq<Act>, a: Act)
    ensures Resent(log + [a]) == Resent(log) + if a.Repair? && a.sent then [a.packet] else []
  {
    assert (log + [a])[..|log|] == log;
  }

  lemma {:induction false} WantedSnoc(repairs: seq<RepairPacket>, r: RepairPacket)
    ensures Wanted(repairs + [r]) == Wanted(repairs) + [r.packet]
  {
    if repairs == [] {
      assert repairs + [r] == [r];
    } else {
      assert (repairs + [r])[1..] == repairs[1..] + [r];
      WantedSnoc(repairs[1..], r);
    }
  }

  lemma RepairTakenOwes(s: State)
    requires Enabled(s, TakeRepair) && (forall r :: r in s.repairs ==> r.generation == s.generation)
    ensures Owed(RepairTaken(s, s.place.tried)) == Owed(s)
  {
    if s.repairs != [] {
      assert s.repairs[0] in s.repairs;
      ConcatAssociates(Resent(s.log), [s.repairs[0].packet], Wanted(s.repairs[1..]));
    }
  }

  lemma RepairTriedOwes(g: Config, s: State, e: Event)
    requires e.TryRepair? && Enabled(s, e) && Unhindered(g, s, e) && Up(s)
    ensures Owed(Done(g, s, e)) == Owed(s)
  {
    hide Wanted;
    ResentSnoc(s.log, Done(g, s, e).log[|s.log|]);
  }

  lemma RequestedOwes(s: State, video: bool, seqNo: int, now: int)
    ensures Owed(s) <= Owed(Requested(s, video, seqNo, now))
  {
    hide Wanted, Resent, R.Retained, Queued;
    var s' := Requested(s, video, seqNo, now);
    if s' != s {
      WantedSnoc(s.repairs, s'.repairs[|s.repairs|]);
      ConcatAssociates(Resent(s.log) + InHand(s), Wanted(s.repairs), [s'.repairs[|s.repairs|].packet]);
    }
  }

  lemma FreshSentOwes(s: State, f: InFlight, p: Packet, now: int, recordedAt: int)
    requires s.place == Repaired
    ensures Owed(FreshSent(s, f, p, now, recordedAt)) == Owed(s)
  {
    hide Wanted, R.Recorded;
    var s' := FreshSent(s, f, p, now, recordedAt);
    ResentSnoc(s.log, s'.log[|s.log|]);
  }

  lemma FrameDroppedOwes(s: State)
    requires !s.place.Holding?
    ensures Owed(FrameDropped(s)) == Owed(s)
  {
    hide Wanted, Resent;
  }

  lemma FreshOwes(g: Config, s: State, e: Event)
    requires e.TryFresh? && Enabled(s, e) && Unhindered(g, s, e) && Up(s)
    ensures Owed(Done(g, s, e)) == Owed(s)
  {
    hide Owed, FreshSent, FrameDropped, Abandoned;
    var f := s.inFlight.value;
    FrameDroppedOwes(s);
    FreshSentOwes(s, f, f.frame.packets[f.next], e.now, e.recordedAt);
  }

  lemma OfferOwes(g: Config, s: State, e: Event)
    requires e.Offer? && Enabled(s, e) && Unhindered(g, s, e)
    ensures Owed(Done(g, s, e)) == Owed(s)
  {
    hide PacketsFor, Resent, Wanted;
    var ps := PacketsFor(g, s, e.data, e.ptsUsec);
    var s1 := s.(capture := None, seqNo := (s.seqNo + |ps|) % TWO16);
    assert !Overdue(s1, |ps|, e.now);
    hide Overdue, Admitted, Owed;
    AdmittedOwes(s1, ps, s.capture.value, e.keyframe);
    SameOwes(s, s1);
    SameOwes(s, s.(capture := None));
  }

  lemma AdmittedOwes(s: State, ps: seq<Packet>, deadline: int, keyframe: bool)
    ensures Owed(Admitted(s, ps, deadline, keyframe)) == Owed(s)
  {
    hide Resent, Wanted;
  }

  lemma SameOwes(s: State, s': State)
    requires s' == s.(capture := s'.capture, seqNo := s'.seqNo)
    ensures Owed(s') == Owed(s)
  {
    hide Resent, Wanted;
  }

  lemma OtherOwes(g: Config, s: State, e: Event)
    requires Enabled(s, e) && Unhindered(g, s, e)
    requires e.Announce? || e.BeginCapture? || e.Voice? || e.Wake? || e.TakeFrame? || e.Advance?
    ensures Owed(Done(g, s, e)) == Owed(s)
  {
    hide Resent, Wanted, R.Recorded, Unhindered;
  }

  lemma StepOwes(g: Config, s: State, e: Event)
    requires Repairable(s) && Enabled(s, e) && Unhindered(g, s, e) && Up(s)
    ensures Owed(s) <= Owed(Done(g, s, e)) && (!e.Request? ==> Owed(Done(g, s, e)) == Owed(s))
  {
    hide Unhindered, Up, Owed, Caches, AllAnswered, AllDifferent;
    match e
    case Offer(_, _, _, _) => OfferOwes(g, s, e);
    case TryFresh(_, _, _, _) => FreshOwes(g, s, e);
    case TryRepair(_, _, _) => RepairTriedOwes(g, s, e);
    case TakeRepair => RepairTakenOwes(s);
    case Request(video, seqNo, now) => RequestedOwes(s, video, seqNo, now);
    case Detach(_) => HinderedOnly(g, s, e);
    case Reset => HinderedOnly(g, s, e);
    case Stop => HinderedOnly(g, s, e);
    case _ => OtherOwes(g, s, e);
  }

  lemma HinderedOnly(g: Config, s: State, e: Event)
    requires Enabled(s, e) && (e.Detach? || e.Reset? || e.Stop?)
    ensures !Unhindered(g, s, e)
  {
  }

  // ------------------------------------------------------------------ the sender on its own

  /** The sender's next step, the pacer granting and the socket taking at this time. */
  function SenderStep(s: State, now: int): Event {
    match s.place
    case Waiting => Wake
    case Repairing(_) => TakeRepair
    case Holding(_, _) => TryRepair(true, now, true)
    case Repaired => if s.inFlight.None? then TakeFrame else TryFresh(true, now, true, now)
    case Stepping => Advance
  }

  predicate OfSenderOnly(es: seq<Event>) {
    forall i :: 0 <= i < |es| ==> OfSender(es[i]) || es[i].TakeFrame? || es[i].TryFresh?
  }

  /** Nothing that is to be sent has reached its deadline. */
  ghost predicate InTimeStill(s: State, now: int) {
    && (forall f :: f in s.queue ==> now < f.deadline)
    && (s.inFlight.Some? && s.inFlight.value.frame.generation == s.generation ==> now < s.inFlight.value.frame.deadline)
    && (forall r :: r in s.repairs ==> now < r.deadline)
    && (s.place.Holding? && s.place.repair.generation == s.generation ==> now < s.place.repair.deadline)
  }

  predicate AtRest(s: State) {
    s.place == Waiting && s.queue == [] && s.repairs == []
  }

  function QueueLoad(queue: seq<VideoFrame>): nat {
    if queue == [] then 0 else |queue[0].packets| + 2 + QueueLoad(queue[1..])
  }

  function FlightLoad(inFlight: Option<InFlight>): int {
    if inFlight.None? then 0 else |inFlight.value.frame.packets| - inFlight.value.next + 1
  }

  /** How far along the sender is in its round: the lower, the closer to the next thing to send, or to rest. */
  function Rank(s: State): int {
    match s.place
    case Waiting => if s.queue == [] then 11 else 22
    case Repairing(tried) => if tried > 0 then 29 - 2 * tried else if s.repairs == [] then 21 else 10
    case Holding(tried, _) => 30 - 2 * tried
    case Repaired => 20
    case Stepping => 23
  }

  function Work(s: State): int {
    40 * (FlightLoad(s.inFlight) + QueueLoad(s.queue) + |s.repairs|) + Rank(s)
  }

  lemma SenderStepTaken(g: Config, s: State, now: int)
    requires Placed(s.place, s.inFlight, s.generation) && InTimeStill(s, now)
    ensures Enabled(s, SenderStep(s, now)) && Unhindered(g, s, SenderStep(s, now))
  {
  }

  lemma WorkIsNatural(s: State)
    requires Placed(s.place, s.inFlight, s.generation)
    ensures Work(s) >= 0
  {
    hide QueueLoad;
  }

  lemma WokenWork(s: State, now: int)
    requires s.place == Waiting && Up(s) && !AtRest(s) && InTimeStill(s, now)
    ensures Work(Woken(s)) < Work(s) && InTimeStill(Woken(s), now)
  {
    hide QueueLoad;
  }

  lemma RepairTakenWork(s: State, now: int)
    requires s.place.Repairing? && s.place.tried <= REPAIRS_AT_ONCE && Up(s) && InTimeStill(s, now)
    ensures var s' := RepairTaken(s, s.place.tried); Work(s') < Work(s) && InTimeStill(s', now)
  {
    hide QueueLoad;
    if s.repairs != [] {
      assert s.repairs[0] in s.repairs;
    }
  }

  lemma RepairTriedWork(s: State, now: int)
    requires s.place.Holding? && 0 < s.place.tried && InTimeStill(s, now)
    ensures var s' := RepairTried(s, s.place.tried, s.place.repair, true, now, true);
      Work(s') < Work(s) && InTimeStill(s', now)
  {
    hide QueueLoad, Sendable;
  }

  lemma FrameTakenWork(s: State, now: int)
    requires s.place == Repaired && s.inFlight.None? && InTimeStill(s, now)
    ensures Work(FrameTaken(s)) < Work(s) && InTimeStill(FrameTaken(s), now)
  {
    if s.queue != [] {
      assert s.queue[0] in s.queue;
    }
  }

  lemma AdvancedWork(s: State, now: int)
    requires s.place == Stepping && s.inFlight.Some? && s.inFlight.value.next <= |s.inFlight.value.frame.packets|
    requires InTimeStill(s, now)
    ensures var s' := Advanced(s, s.inFlight.value); Work(s') < Work(s) && InTimeStill(s', now)
  {
    hide QueueLoad;
  }

  lemma FreshTriedWork(s: State, now: int)
    requires s.place == Repaired && s.inFlight.Some? && s.inFlight.value.next < |s.inFlight.value.frame.packets|
    requires Up(s) && InTimeStill(s, now)
    ensures var s' := FreshTried(s, s.inFlight.value, true, now, true, now);
      Work(s') < Work(s) && InTimeStill(s', now)
  {
    hide QueueLoad, R.Recorded, Abandoned;
  }

  lemma SenderStepWorks(g: Config, s: State, now: int)
    requires Placed(s.place, s.inFlight, s.generation) && Up(s) && InTimeStill(s, now) && !AtRest(s)
    requires Enabled(s, SenderStep(s, now))
    ensures var s' := Done(g, s, SenderStep(s, now)); Work(s') < Work(s) && InTimeStill(s', now)
  {
    hide Work, InTimeStill, Up, AtRest, FreshTried, Advanced, FrameTaken, RepairTried, RepairTaken, Woken;
    match s.place
    case Waiting => WokenWork(s, now);
    case Repairing(_) => RepairTakenWork(s, now);
    case Holding(_, _) => RepairTriedWork(s, now);
    case Repaired => if s.inFlight.None? { FrameTakenWork(s, now); } else { FreshTriedWork(s, now); }
    case Stepping => AdvancedWork(s, now);
  }

  lemma SenderStepOnTime(s: State, now: int, clock: int)
    requires clock <= now
    ensures var e := SenderStep(s, now);
      && OnTime(clock, e) && Latest(clock, e) <= now && !e.Request? && !e.Offer?
      && (OfSender(e) || e.TakeFrame? || e.TryFresh?)
  {
  }

  lemma StepOn(g: Config, w: World, now: int)
    requires Inv(g, w) && Up(w.s) && w.h.clock <= now && InTimeStill(w.s, now) && !AtRest(w.s)
    ensures var e := SenderStep(w.s, now); var w' := Next(g, w, e);
      && Smooth(g, w, e) && (OfSender(e) || e.TakeFrame? || e.TryFresh?)
      && Up(w'.s) && w'.h.clock <= now && InTimeStill(w'.s, now)
      && 0 <= Work(w.s) && Work(w'.s) < Work(w.s)
      && w'.h.packets == w.h.packets && Owed(w'.s) == Owed(w.s)
  {
    var e := SenderStep(w.s, now);
    InvMeans(g, w);
    InvParts(g, w);
    hide Inv, Books, Flowing, Repairable, Past, InTimeStill, Work, Owed, Up, AtRest, Unhindered, SenderStep, Done, Took;
    SenderStepTaken(g, w.s, now);
    SenderStepOnTime(w.s, now, w.h.clock);
    WorkIsNatural(w.s);
    SenderStepWorks(g, w.s, now);
    StepSurvives(g, w.s, e);
    StepOwes(g, w.s, e);
    TookOfferOnly(g, w.s, e);
    QuietHistory(g, w.s, w.h, e, Done(g, w.s, e));
    ClockOf(g, w.s, w.h, e, Done(g, w.s, e));
  }

  lemma TookOfferOnly(g: Config, s: State, e: Event)
    ensures Took(g, s, e) ==> e.Offer?
  {
  }

  lemma ClockOf(g: Config, s: State, h: History, e: Event, s': State)
    ensures Observed(g, s, h, e, s').clock == Latest(h.clock, e)
  {
    hide Took;
  }

  lemma {:induction false} SmoothCons(g: Config, es: seq<Event>, e: Event, fs: seq<Event>)
    requires Smooth(g, Reached(g, es), e) && AllSmooth(g, es + [e], fs)
    ensures AllSmooth(g, es, [e] + fs)
    decreases |fs|
  {
    hide Smooth, Reached;
    if fs == [] {
      assert [e] + fs == [e] && [e][..0] == [] && es + [] == es;
      assert AllSmooth(g, es, []);
    } else {
      var m := |fs| - 1;
      SmoothCons(g, es, e, fs[..m]);
      assert ([e] + fs)[..m + 1] == [e] + fs[..m];
      assert es + [e] + fs[..m] == es + ([e] + fs[..m]);
    }
  }

  lemma {:induction false} DriveOn(g: Config, es: seq<Event>, now: int) returns (fs: seq<Event>)
    requires Configured(g)
    requires var w := Reached(g, es); Up(w.s) && w.h.clock <= now && InTimeStill(w.s, now)
    ensures OfSenderOnly(fs) && AllSmooth(g, es, fs)
    ensures var w, w' := Reached(g, es), Reached(g, es + fs);
      AtRest(w'.s) && w'.h.packets == w.h.packets && Owed(w'.s) == Owed(w.s)
    decreases Work(Reached(g, es).s)
  {
    hide Reached, Inv, Up, InTimeStill, AtRest, Work, Owed, Smooth, Next, SenderStep;
    var w := Reached(g, es);
    fs := [];
    if AtRest(w.s) {
      assert es + [] == es;
    } else {
      var e := SenderStep(w.s, now);
      AlwaysInv(g, es);
      StepOn(g, w, now);
      ReachedSnoc(g, es, [e]);
      assert es + [e][..0] == es;
      fs := DriveOn(g, es + [e], now);
      SmoothCons(g, es, e, fs);
      assert es + [e] + fs == es + ([e] + fs);
      fs := [e] + fs;
    }
  }

  lemma RestCarries(s: State)
    requires AtRest(s) && s.inFlight.None?
    ensures Carried(s) == PacketsOf(FreshOf(s.log, s.generation)) && Owed(s) == Resent(s.log)
  {
    hide PacketsOf, FreshOf, Resent;
  }

  /**
   From any reachable state with a client streaming, nothing to be sent having reached its deadline: left
   to itself, the sender comes to rest, having sent in order every packet in flight and queued, and every
   repair in hand and waiting.
   */
  lemma EverythingQueuedIsSent(g: Config, es: seq<Event>, now: int) returns (fs: seq<Event>)
    requires Configured(g)
    requires var w := Reached(g, es); Up(w.s) && w.h.clock <= now && InTimeStill(w.s, now)
    ensures OfSenderOnly(fs) && AllSmooth(g, es, fs)
    ensures var s, s' := Reached(g, es).s, Reached(g, es + fs).s;
      && AtRest(s') && s'.generation == s.generation
      && PacketsOf(FreshOf(s'.log, s'.generation)) ==
           PacketsOf(FreshOf(s.log, s.generation)) + Left(s.inFlight, s.generation) + Backlog(s.queue)
      && Resent(s'.log) == Resent(s.log) + InHand(s) + Wanted(s.repairs)
  {
    hide Reached, Inv, InTimeStill, AllSmooth, OfSenderOnly, PacketsOf, FreshOf, Left, Backlog, Resent, Wanted, InHand,
      Up;
    fs := DriveOn(g, es, now);
    NothingIsAbandoned(g, es, fs);
    var w, w' := Reached(g, es), Reached(g, es + fs);
    AlwaysInv(g, es + fs);
    InvMeans(g, w');
    RestCarries(w'.s);
    assert w'.h.packets[|w.h.packets|..] == [];
  }

  /**
   And however the sender's steps fall among others': whenever nothing has stood in the way and it is back
   asleep with nothing queued, every packet that was in flight or queued, and those of every unit
   packetized since, has been sent under the generation.
   */
  lemma AsleepMeansAllSent(g: Config, es: seq<Event>, fs: seq<Event>)
    requires Configured(g) && Up(Reached(g, es).s) && AllSmooth(g, es, fs)
    requires var s' := Reached(g, es + fs).s; s'.place == Waiting && s'.queue == []
    ensures var w, w' := Reached(g, es), Reached(g, es + fs); var s, s' := w.s, w'.s;
      && s'.generation == s.generation && w.h.packets <= w'.h.packets
      && PacketsOf(FreshOf(s'.log, s'.generation)) ==
           PacketsOf(FreshOf(s.log, s.generation)) + Left(s.inFlight, s.generation) + Backlog(s.queue)
           + Flatten(w'.h.packets[|w.h.packets|..])
  {
    hide Reached, Inv, AllSmooth, PacketsOf, FreshOf, Flatten, Up;
    NothingIsAbandoned(g, es, fs);
    var w' := Reached(g, es + fs);
    AlwaysInv(g, es + fs);
    InvMeans(g, w');
    var sent := PacketsOf(FreshOf(w'.s.log, w'.s.generation));
    assert sent + [] + [] == sent;
  }

  /**
   Between two packets of a frame the sender takes a repair in hand exactly while it has not been told to
   stop, one waits, and fewer than four have been taken: then the oldest; else it goes on to the frame.
   */
  lemma RepairsAreTakenExactly(g: Config, s: State)
    requires Enabled(s, TakeRepair)
    ensures var s' := Done(g, s, TakeRepair);
      if s.running && s.repairs != [] && s.place.tried < 4
      then s'.place == Holding(s.place.tried + 1, s.repairs[0]) && s'.repairs == s.repairs[1..]
      else s'.place == Repaired && s'.repairs == s.repairs
  {
  }

  /** Over any such steps no repair is lost: those sent, in hand and waiting stay, in order, sent first. */
  lemma {:induction false} NoRepairIsLost(g: Config, es: seq<Event>, fs: seq<Event>)
    requires Configured(g) && Up(Reached(g, es).s) && AllSmooth(g, es, fs)
    ensures Owed(Reached(g, es).s) <= Owed(Reached(g, es + fs).s)
    decreases |fs|
  {
    hide Reached, Unhindered, Inv, Owed, Up, Repairable, Flowing, Books, Done;
    if fs == [] {
      assert es + fs == es;
    } else {
      var before, e := fs[..|fs| - 1], fs[|fs| - 1];
      var w1 := Reached(g, es + before);
      NoRepairIsLost(g, es, before);
      SpansGrow(g, es, before);
      AlwaysInv(g, es + before);
      InvParts(g, w1);
      ReachedSnoc(g, es, fs);
      if Enabled(w1.s, e) && OnTime(w1.h.clock, e) {
        StepOwes(g, w1.s, e);
      }
    }
  }

  // ------------------------------------------------------------------ which calls are sent

  /** The chain is open after these calls: it was before, or one of them brought a keyframe. */
  ghost predicate Opened(open: bool, calls: seq<Call>) {
    open || exists i :: 0 <= i < |calls| && calls[i].keyframe && Nals(calls[i].unit.data) != []
  }

  /** The units of these calls from the first keyframe on, those with nothing in them left out; all if open before. */
  ghost function Chosen(open: bool, calls: seq<Call>): seq<Unit> {
    if calls == [] then []
    else
      var before, c := calls[..|calls| - 1], calls[|calls| - 1];
      Chosen(open, before) + if Nals(c.unit.data) != [] && (Opened(open, before) || c.keyframe) then [c.unit] else []
  }

  lemma ChosenSnoc(open: bool, calls: seq<Call>, c: Call)
    ensures Chosen(open, calls + [c]) == Chosen(open, calls) +
      if Nals(c.unit.data) != [] && (Opened(open, calls) || c.keyframe) then [c.unit] else []
    ensures Opened(open, calls + [c]) <==> Opened(open, calls) || (c.keyframe && Nals(c.unit.data) != [])
  {
    hide Nals;
    var all := calls + [c];
    assert all[..|calls|] == calls;
    if c.keyframe && Nals(c.unit.data) != [] {
      assert all[|calls|].keyframe;
    }
    if i :| 0 <= i < |calls| && calls[i].keyframe && Nals(calls[i].unit.data) != [] {
      assert all[i].keyframe;
    }
  }

  /** From w to w': what the calls in between brought was chosen so. */
  ghost predicate Chooses(w: World, w': World) {
    && w.h.calls <= w'.h.calls
    && w'.h.units == w.h.units + Chosen(!w.s.awaiting, w'.h.calls[|w.h.calls|..])
    && (!w'.s.awaiting <==> Opened(!w.s.awaiting, w'.h.calls[|w.h.calls|..]))
  }

  lemma OfferAwaits(g: Config, s: State, e: Event)
    requires e.Offer? && Enabled(s, e) && Unhindered(g, s, e) && s.queued >= 0
    ensures Done(g, s, e).awaiting == (s.awaiting && !Took(g, s, e))
  {
    hide PacketsFor, Took;
    var ps := PacketsFor(g, s, e.data, e.ptsUsec);
    var s1 := s.(capture := None, seqNo := (s.seqNo + |ps|) % TWO16);
    assert !Overdue(s1, |ps|, e.now);
    assert Took(g, s, e) <==> Accepting(s, e.keyframe) && ps != [] by { TookMeans(g, s, e); }
    hide Overdue;
  }

  lemma OtherAwaits(g: Config, s: State, e: Event)
    requires Enabled(s, e) && Unhindered(g, s, e) && Up(s) && !e.Offer?
    ensures Done(g, s, e).awaiting == s.awaiting
  {
    hide R.Recorded, R.Retained, Queued, Sendable, Abandoned;
  }

  lemma CallNoted(g: Config, s: State, h: History, e: Event, s': State)
    requires e.Offer?
    ensures var h' := Observed(g, s, h, e, s'); var u := E.Unit(e.data, e.ptsUsec);
      && h'.calls == h.calls + [Call(u, e.keyframe)]
      && h'.units == h.units + if Took(g, s, e) then [u] else []
  {
    hide Took, PacketsFor, Extended;
  }

  lemma NoCallNoted(g: Config, s: State, h: History, e: Event, s': State)
    requires !e.Offer?
    ensures var h' := Observed(g, s, h, e, s'); h'.calls == h.calls && h'.units == h.units
  {
    hide Took;
  }

  lemma StepChooses(g: Config, w: World, e: Event)
    requires Inv(g, w) && Up(w.s) && Enabled(w.s, e) && OnTime(w.h.clock, e) && Unhindered(g, w.s, e)
    ensures var w' := Next(g, w, e);
      if e.Offer? then
        var c := Call(E.Unit(e.data, e.ptsUsec), e.keyframe);
        && w'.h.calls == w.h.calls + [c]
        && w'.h.units == w.h.units +
             (if Nals(c.unit.data) != [] && (!w.s.awaiting || c.keyframe) then [c.unit] else [])
        && (!w'.s.awaiting <==> !w.s.awaiting || (c.keyframe && Nals(c.unit.data) != []))
      else w'.h.calls == w.h.calls && w'.h.units == w.h.units && w'.s.awaiting == w.s.awaiting
  {
    InvParts(g, w);
    FlowingGate(g, w.s, w.h);
    hide Inv, Flowing, Books, Repairable, Gate, Nals, PacketsFor, Unhindered, Observed, Done, Took;
    if e.Offer? {
      OfferAwaits(g, w.s, e);
      CallNoted(g, w.s, w.h, e, Done(g, w.s, e));
      TookMeans(g, w.s, e);
      NoPacketsNoUnits(g, w.s, e.data, e.ptsUsec);
    } else {
      OtherAwaits(g, w.s, e);
      NoCallNoted(g, w.s, w.h, e, Done(g, w.s, e));
    }
  }

  lemma ChoosesOn(g: Config, w0: World, w: World, e: Event)
    requires Chooses(w0, w) && Inv(g, w) && Up(w.s) && Smooth(g, w, e)
    ensures Chooses(w0, Next(g, w, e))
  {
    hide Inv, Up, Unhindered, Nals, Chosen, Opened, Enabled, OnTime;
    if Enabled(w.s, e) && OnTime(w.h.clock, e) {
      StepChooses(g, w, e);
      var w' := Next(g, w, e);
      hide Next;
      if e.Offer? {
        var c := Call(E.Unit(e.data, e.ptsUsec), e.keyframe);
        var n := |w0.h.calls|;
        ChosenSnoc(!w0.s.awaiting, w.h.calls[n..], c);
        assert w'.h.calls[n..] == w.h.calls[n..] + [c];
      }
    }
  }

  lemma ChoosesNone(w: World)
    ensures Chooses(w, w)
  {
    hide Nals;
    assert w.h.calls[|w.h.calls|..] == [];
  }

  lemma {:induction false} CallsChoose(g: Config, es: seq<Event>, fs: seq<Event>)
    requires Configured(g) && Up(Reached(g, es).s) && AllSmooth(g, es, fs)
    ensures Chooses(Reached(g, es), Reached(g, es + fs))
    decreases |fs|
  {
    hide Reached, Smooth, Inv, Up, Chooses;
    if fs == [] {
      assert es + fs == es;
      ChoosesNone(Reached(g, es));
    } else {
      var before := fs[..|fs| - 1];
      CallsChoose(g, es, before);
      SpansGrow(g, es, before);
      AlwaysInv(g, es + before);
      ReachedSnoc(g, es, fs);
      ChoosesOn(g, Reached(g, es), Reached(g, es + before), fs[|fs| - 1]);
    }
  }

  /**
   Over any such steps, no call is turned away without reason: the units packetized on the way, all of which
   NothingIsAbandoned keeps, are exactly those of the calls with something in them, from the first
   keyframe on; and all of them if none was awaited.
   */
  lemma EveryCallIsChosen(g: Config, es: seq<Event>, fs: seq<Event>)
    requires Configured(g) && Up(Reached(g, es).s) && AllSmooth(g, es, fs)
    ensures var w, w' := Reached(g, es), Reached(g, es + fs);
      && w.h.calls <= w'.h.calls
      && w'.h.units == w.h.units + Chosen(!w.s.awaiting, w'.h.calls[|w.h.calls|..])
  {
    hide Reached, AllSmooth, Up, Chosen;
    CallsChoose(g, es, fs);
  }
}
