/**
 All runs of RtpServer: any interleaving of capture, sender, RTCP and signaling, under any clock, pacer
 and socket.
 */
module ServerRuns {
  import opened Bytes
  import opened AnnexB
  import opened Rtp
  import opened Packetizer
  import opened Retransmit
  import opened Server
  import E = EndToEnd

  type Unit = E.Unit

  /** One call of broadcast_video. */
  datatype Call = Call(unit: Unit, keyframe: bool)

  /** The units queued under one generation: packetized units from..to. */
  datatype Span = Span(from: nat, to: nat)

  /**
   What has happened so far: the latest clock reading, every call of broadcast_video, the units that
   were packetized with their packets and the calls they came with, and one span for each generation.
   */
  datatype History = History(clock: int, calls: seq<Call>, units: seq<Unit>, packets: seq<seq<Packet>>,
                             callOf: seq<nat>, spans: seq<Span>)

  datatype World = World(s: State, h: History)

  const BEFORE := World(INITIAL, History(0, [], [], [], [], [Span(0, 0)]))

  /** Clock readings never go back, whichever thread takes them. */
  predicate OnTime(clock: int, e: Event) {
    match e
    case BeginCapture(now) => clock <= now
    case Offer(_, _, _, now) => clock <= now
    case Voice(_, _, now) => clock <= now
    case Request(_, _, now) => clock <= now
    case TryRepair(_, now, _) => clock <= now
    case TryFresh(_, now, _, recordedAt) => clock <= now <= recordedAt
    case _ => true
  }

  function Latest(clock: int, e: Event): int {
    match e
    case BeginCapture(now) => now
    case Offer(_, _, _, now) => now
    case Voice(_, _, now) => now
    case Request(_, _, now) => now
    case TryRepair(_, now, _) => now
    case TryFresh(_, _, _, recordedAt) => recordedAt
    case _ => clock
  }

  /** The call got as far as numbering packets. */
  ghost predicate Took(g: Config, s: State, e: Event) {
    e.Offer? && s.capture.Some? && Accepting(s, e.keyframe) && PacketsFor(g, s, e.data, e.ptsUsec) != []
  }

  /** The unit numbered n has been queued under the current generation. */
  function Extended(spans: seq<Span>, n: nat): seq<Span>
    requires spans != []
  {
    var last := spans[|spans| - 1];
    spans[|spans| - 1 := if last.from == last.to then Span(n, n + 1) else Span(last.from, n + 1)]
  }

  ghost function Observed(g: Config, s: State, h: History, e: Event, s': State): History {
    var n := |h.units|;
    var h1 := h.(clock := Latest(h.clock, e),
                 spans := if s'.generation > s.generation then h.spans + [Span(n, n)] else h.spans);
    if !e.Offer? then h1
    else
      var u := E.Unit(e.data, e.ptsUsec);
      var h2 := h1.(calls := h.calls + [Call(u, e.keyframe)]);
      if !Took(g, s, e) then h2
      else
        h2.(units := h.units + [u], packets := h.packets + [PacketsFor(g, s, e.data, e.ptsUsec)],
            callOf := h.callOf + [|h.calls|],
            spans := if s'.awaiting || h1.spans == [] then h1.spans else Extended(h1.spans, n))
  }

  /** A step that no thread can take now does not happen. */
  ghost function Next(g: Config, w: World, e: Event): World {
    if Enabled(w.s, e) && OnTime(w.h.clock, e) then
      var s' := Done(g, w.s, e);
      World(s', Observed(g, w.s, w.h, e, s'))
    else w
  }

  ghost function Reached(g: Config, es: seq<Event>): World {
    if es == [] then BEFORE else Next(g, Reached(g, es[..|es| - 1]), es[|es| - 1])
  }

  // -------------------------------------------------------------- queue and deadlines

  function Total(queue: seq<VideoFrame>): nat {
    if queue == [] then 0 else |queue[0].packets| + Total(queue[1..])
  }

  ghost predicate Sorted(queue: seq<VideoFrame>) {
    forall i, j :: 0 <= i < j < |queue| ==> queue[i].deadline <= queue[j].deadline
  }

  ghost predicate Ages(queue: seq<VideoFrame>, generation: nat, limit: int) {
    forall f :: f in queue ==> f.generation == generation && f.packets != [] && f.deadline <= limit
  }

  /** What the sender holds agrees with where it stands. */
  predicate Placed(place: Place, inFlight: Option<InFlight>, generation: nat) {
    && (inFlight.Some? ==> inFlight.value.next <= |inFlight.value.frame.packets|
                           && inFlight.value.frame.generation <= generation)
    && (place == Waiting ==> inFlight.None?)
    && (place == Stepping ==> inFlight.Some?)
    && (place != Stepping && inFlight.Some? ==> inFlight.value.next < |inFlight.value.frame.packets|)
    && (place.Repairing? ==> place.tried <= REPAIRS_AT_ONCE)
    && (place.Holding? ==> 0 < place.tried <= REPAIRS_AT_ONCE)
  }

  ghost predicate Kept(queue: seq<VideoFrame>, queued: int, generation: nat, limit: int) {
    queued == Total(queue) <= MAX_QUEUED && Sorted(queue) && Ages(queue, generation, limit)
  }

  ghost predicate Books(s: State, clock: int) {
    && Kept(s.queue, s.queued, s.generation, if s.capture.Some? then s.capture.value else clock + MAX_SEND_AGE)
    && (s.capture.Some? ==> s.capture.value <= clock + MAX_SEND_AGE)
    && Placed(s.place, s.inFlight, s.generation)
  }

  lemma {:induction false} TotalSnoc(queue: seq<VideoFrame>, f: VideoFrame)
    ensures Total(queue + [f]) == Total(queue) + |f.packets|
  {
    if queue == [] {
      assert queue + [f] == [f];
    } else {
      assert (queue + [f])[1..] == queue[1..] + [f];
      TotalSnoc(queue[1..], f);
    }
  }

  lemma KeptEmpty(generation: nat, limit: int)
    ensures Kept([], 0, generation, limit)
  {
  }

  lemma KeptSnoc(queue: seq<VideoFrame>, queued: int, generation: nat, limit: int, f: VideoFrame, limit': int)
    requires Kept(queue, queued, generation, limit) && limit <= f.deadline <= limit'
    requires f.packets != [] && f.generation == generation && queued + |f.packets| <= MAX_QUEUED
    ensures Kept(queue + [f], queued + |f.packets|, generation, limit')
  {
    TotalSnoc(queue, f);
    forall i | 0 <= i < |queue|
      ensures queue[i].deadline <= f.deadline
    {
      assert queue[i] in queue;
    }
  }

  lemma KeptTail(queue: seq<VideoFrame>, queued: int, generation: nat, limit: int)
    requires Kept(queue, queued, generation, limit) && queue != []
    ensures Kept(queue[1..], queued - |queue[0].packets|, generation, limit)
    ensures queue[0].packets != [] && queue[0].generation == generation
  {
    assert queue[0] in queue;
    forall f | f in queue[1..] ensures f in queue { }
  }

  lemma KeptLonger(queue: seq<VideoFrame>, queued: int, generation: nat, limit: int, limit': int)
    requires Kept(queue, queued, generation, limit) && limit <= limit'
    ensures Kept(queue, queued, generation, limit')
  {
  }

  lemma PlacedLater(place: Place, inFlight: Option<InFlight>, generation: nat)
    requires Placed(place, inFlight, generation)
    ensures Placed(place, inFlight, generation + 1)
  {
  }

  lemma AbandonedBooks(s: State, clock: int, limit: int)
    requires Books(s, clock) && clock <= limit
    ensures Books(Abandoned(s), limit)
  {
    hide Kept, Placed;
    KeptEmpty(s.generation + 1, if s.capture.Some? then s.capture.value else limit + MAX_SEND_AGE);
    PlacedLater(s.place, s.inFlight, s.generation);
  }

  lemma AdmittedBooks(s: State, ps: seq<Packet>, deadline: int, keyframe: bool, now: int)
    requires Ready(s, deadline, now) && ps != [] && (s.queued + |ps| <= MAX_QUEUED || |ps| > MAX_QUEUED)
    ensures Books(Admitted(s, ps, deadline, keyframe), now)
  {
    hide Kept, Placed;
    if |ps| <= MAX_QUEUED {
      KeptSnoc(s.queue, s.queued, s.generation, deadline, VideoFrame(ps, deadline, s.generation), now + MAX_SEND_AGE);
    }
    KeptLonger(s.queue, s.queued, s.generation, deadline, now + MAX_SEND_AGE);
  }

  /** A capture with this deadline is being served. */
  ghost predicate Ready(s: State, deadline: int, now: int) {
    && s.capture.None? && deadline <= now + MAX_SEND_AGE
    && Kept(s.queue, s.queued, s.generation, deadline) && Placed(s.place, s.inFlight, s.generation)
  }

  lemma EnqueuedBooks(s: State, ps: seq<Packet>, deadline: int, keyframe: bool, now: int)
    requires Ready(s, deadline, now) && ps != []
    ensures Books(Enqueued(s, ps, deadline, keyframe, now), now)
  {
    hide Kept, Placed, Admitted, Books;
    if Overdue(s, |ps|, now) {
      KeptEmpty(s.generation + 1, deadline);
      PlacedLater(s.place, s.inFlight, s.generation);
      AdmittedBooks(Abandoned(s), ps, deadline, keyframe, now);
    } else {
      AdmittedBooks(s, ps, deadline, keyframe, now);
    }
  }

  lemma OfferedBooks(g: Config, s: State, e: Event, clock: int)
    requires Books(s, clock) && e.Offer? && Enabled(s, e) && OnTime(clock, e)
    ensures Books(Offered(g, s, e.data, e.ptsUsec, e.keyframe, e.now), e.now)
  {
    hide Kept, Placed, Enqueued, PacketsFor;
    var ps := PacketsFor(g, s, e.data, e.ptsUsec);
    KeptLonger(s.queue, s.queued, s.generation, s.capture.value, e.now + MAX_SEND_AGE);
    if Accepting(s, e.keyframe) && ps != [] {
      EnqueuedBooks(s.(capture := None, seqNo := (s.seqNo + |ps|) % TWO16), ps, s.capture.value, e.keyframe, e.now);
    }
  }

  lemma FrameTakenBooks(s: State, clock: int)
    requires Books(s, clock) && Enabled(s, TakeFrame)
    ensures Books(FrameTaken(s), clock)
  {
    hide Kept;
    if s.queue != [] {
      KeptTail(s.queue, s.queued, s.generation, if s.capture.Some? then s.capture.value else clock + MAX_SEND_AGE);
    }
  }

  lemma FreshTriedBooks(s: State, e: Event, clock: int)
    requires Books(s, clock) && e.TryFresh? && Enabled(s, e) && OnTime(clock, e)
    ensures Books(FreshTried(s, s.inFlight.value, e.granted, e.now, e.accepted, e.recordedAt), e.recordedAt)
  {
    hide Kept, Recorded;
    AbandonedBooks(s, clock, e.recordedAt);
    BooksLater(s, clock, e.recordedAt);
  }

  lemma BooksLater(s: State, clock: int, clock': int)
    requires Books(s, clock) && clock <= clock'
    ensures Books(s, clock')
  {
    hide Kept, Placed;
    if s.capture.None? {
      KeptLonger(s.queue, s.queued, s.generation, clock + MAX_SEND_AGE, clock' + MAX_SEND_AGE);
    }
  }

  predicate OfSender(e: Event) {
    e.Wake? || e.TakeRepair? || e.TryRepair? || e.Advance?
  }

  predicate SameAccounts(s: State, s': State) {
    s'.queue == s.queue && s'.queued == s.queued && s'.generation == s.generation && s'.capture == s.capture
  }

  /** The sender's own steps leave the queue and its accounts alone. */
  lemma SenderTouches(g: Config, s: State, e: Event)
    requires Enabled(s, e) && OfSender(e)
    ensures SameAccounts(s, Done(g, s, e))
  {
    hide Woken, RepairTaken, RepairTried, Advanced;
    if e.Wake? {
      WokenTouches(s);
    } else if e.TakeRepair? {
      RepairTakenTouches(s, s.place.tried);
    } else if e.TryRepair? {
      RepairTriedTouches(s, s.place.tried, s.place.repair, e.granted, e.now, e.accepted);
    } else {
      AdvancedTouches(s, s.inFlight.value);
    }
  }

  lemma WokenTouches(s: State)
    ensures SameAccounts(s, Woken(s))
  {
  }

  lemma RepairTakenTouches(s: State, tried: nat)
    ensures SameAccounts(s, RepairTaken(s, tried))
  {
  }

  lemma RepairTriedTouches(s: State, tried: nat, r: RepairPacket, granted: bool, now: int, accepted: bool)
    ensures SameAccounts(s, RepairTried(s, tried, r, granted, now, accepted))
  {
  }

  lemma AdvancedTouches(s: State, f: InFlight)
    ensures SameAccounts(s, Advanced(s, f))
  {
  }

  lemma SenderPlaced(g: Config, s: State, e: Event)
    requires Placed(s.place, s.inFlight, s.generation) && Enabled(s, e) && OfSender(e)
    ensures Placed(Done(g, s, e).place, Done(g, s, e).inFlight, s.generation)
  {
    hide Placed, Woken, RepairTaken, RepairTried, Advanced;
    if e.Wake? {
      WokenPlaced(s);
    } else if e.TakeRepair? {
      RepairTakenPlaced(s);
    } else if e.TryRepair? {
      RepairTriedPlaced(s, e.granted, e.now, e.accepted);
    } else {
      AdvancedPlaced(s);
    }
  }

  lemma WokenPlaced(s: State)
    requires Placed(s.place, s.inFlight, s.generation) && Enabled(s, Event.Wake)
    ensures Placed(Woken(s).place, Woken(s).inFlight, s.generation)
  {
  }

  lemma RepairTakenPlaced(s: State)
    requires Placed(s.place, s.inFlight, s.generation) && Enabled(s, Event.TakeRepair)
    ensures var s' := RepairTaken(s, s.place.tried); Placed(s'.place, s'.inFlight, s.generation)
  {
  }

  lemma RepairTriedPlaced(s: State, granted: bool, now: int, accepted: bool)
    requires Placed(s.place, s.inFlight, s.generation) && Enabled(s, Event.TryRepair(granted, now, accepted))
    ensures var s' := RepairTried(s, s.place.tried, s.place.repair, granted, now, accepted);
      Placed(s'.place, s'.inFlight, s.generation)
  {
  }

  lemma AdvancedPlaced(s: State)
    requires Placed(s.place, s.inFlight, s.generation) && Enabled(s, Event.Advance)
    ensures var s' := Advanced(s, s.inFlight.value); Placed(s'.place, s'.inFlight, s.generation)
  {
  }

  lemma SenderBooks(g: Config, s: State, e: Event, clock: int)
    requires Books(s, clock) && Enabled(s, e) && OnTime(clock, e) && OfSender(e)
    ensures Books(Done(g, s, e), Latest(clock, e))
  {
    SenderPlaced(g, s, e);
    SenderTouches(g, s, e);
    BooksLater(s, clock, Latest(clock, e));
    hide *;
    BooksSame(s, Done(g, s, e), Latest(clock, e));
  }

  lemma BooksSame(s: State, s': State, clock: int)
    requires Books(s, clock) && Placed(s'.place, s'.inFlight, s.generation)
    requires SameAccounts(s, s')
    ensures Books(s', clock)
  {
    hide Kept, Placed;
  }

  lemma OtherBooks(g: Config, s: State, e: Event, clock: int)
    requires Books(s, clock) && Enabled(s, e) && OnTime(clock, e)
    requires !e.Offer? && !e.TakeFrame? && !e.TryFresh? && !OfSender(e)
    ensures Books(Done(g, s, e), Latest(clock, e))
  {
    hide Kept, Placed, Recorded, Retained, Queued;
    AbandonedBooks(s, clock, clock);
    BooksLater(s, clock, Latest(clock, e));
  }

  lemma BooksKept(g: Config, w: World, e: Event)
    requires Books(w.s, w.h.clock)
    ensures Books(Next(g, w, e).s, Next(g, w, e).h.clock)
  {
    hide Books, OnTime, Offered, FrameTaken, FreshTried;
    if Enabled(w.s, e) && OnTime(w.h.clock, e) {
      if e.Offer? {
        OfferedBooks(g, w.s, e, w.h.clock);
      } else if e.TryFresh? {
        FreshTriedBooks(w.s, e, w.h.clock);
      } else if e.TakeFrame? {
        FrameTakenBooks(w.s, w.h.clock);
      } else if OfSender(e) {
        SenderBooks(g, w.s, e, w.h.clock);
      } else {
        OtherBooks(g, w.s, e, w.h.clock);
      }
    }
  }

  // ------------------------------------------------------------------- generations

  /** The packets of frames that the socket took under generation k, as they were recorded. */
  function FreshOf(log: seq<Act>, k: nat): seq<Record> {
    if log == [] then []
    else
      var a := log[|log| - 1];
      FreshOf(log[..|log| - 1], k) +
      if a.Fresh? && a.generation == k then [Record(NumberOf(a.packet), Entry(a.packet, a.recordedAt))] else []
  }

  function PacketsOf(rs: seq<Record>): (ps: seq<Packet>)
    ensures |ps| == |rs|
  {
    seq(|rs|, i requires 0 <= i < |rs| => rs[i].e.packet)
  }

  function Backlog(queue: seq<VideoFrame>): seq<Packet> {
    if queue == [] then [] else queue[0].packets + Backlog(queue[1..])
  }

  /** What is left of the frame in flight, unless it has been cancelled. */
  function Left(inFlight: Option<InFlight>, generation: nat): seq<Packet> {
    if inFlight.Some? && inFlight.value.frame.generation == generation
       && inFlight.value.next <= |inFlight.value.frame.packets|
    then inFlight.value.frame.packets[inFlight.value.next..] else []
  }

  /** No call between these two brought a unit. */
  ghost predicate Adjacent(calls: seq<Call>, a: int, b: int) {
    forall i :: a < i < b && 0 <= i < |calls| ==> Nals(calls[i].unit.data) == []
  }

  /** Consecutive units from a keyframe on. */
  ghost predicate Consecutive(h: History, sp: Span) {
    && sp.from <= sp.to <= |h.units| == |h.callOf| == |h.packets|
    && (sp.from < sp.to ==> h.callOf[sp.from] < |h.calls| && h.calls[h.callOf[sp.from]].keyframe)
    && (forall u :: sp.from <= u < sp.to - 1 ==> Adjacent(h.calls, h.callOf[u], h.callOf[u + 1]))
  }

  /** What was sent under generation k begins its span's units, whole but for the end. */
  ghost predicate Safe(h: History, log: seq<Act>, k: nat) {
    && k < |h.spans| && Consecutive(h, h.spans[k])
    && PacketsOf(FreshOf(log, k)) <= Flatten(h.packets[h.spans[k].from..h.spans[k].to])
  }

  /** Each packetized unit came with a call of its own, in order, and has something in it. */
  ghost predicate Matched(h: History) {
    && |h.units| == |h.callOf|
    && (forall u :: 0 <= u < |h.units| ==>
      h.callOf[u] < |h.calls| && h.calls[h.callOf[u]].unit == h.units[u] && Nals(h.units[u].data) != [])
    && (forall u, v :: 0 <= u < v < |h.callOf| ==> h.callOf[u] < h.callOf[v])
  }

  /** Each unit has the packets that its NAL units take. */
  ghost predicate Sized(g: Config, h: History) {
    |h.units| == |h.packets| && forall u :: 0 <= u < |h.units| ==> |h.packets[u]| == |E.Parts(g.codec, h.units[u])|
  }

  /** Units, packets, calls and the counter agree. */
  ghost predicate Ledger(g: Config, s: State, h: History) {
    && Configured(g) && |h.units| == |h.callOf| == |h.packets|
    && Flatten(h.packets) == E.Sent(g.codec, g.ssrc, h.units, 0)
    && s.seqNo == |Flatten(h.packets)| % TWO16
    && Matched(h) && Sized(g, h)
  }

  function LastSpan(h: History): Span {
    if h.spans == [] then Span(0, 0) else h.spans[|h.spans| - 1]
  }

  ghost predicate Gate(s: State, h: History) {
    var sp := LastSpan(h);
    && |h.spans| == s.generation + 1
    && sp.from <= sp.to <= |h.units| == |h.callOf|
    && (s.awaiting <==> sp.from == sp.to)
    && (s.awaiting ==> s.queue == [] && Left(s.inFlight, s.generation) == [])
    && (s.streaming ==> !s.resetDue)
    && (!s.streaming && !s.resetDue ==> s.awaiting)
    && (s.streaming && !s.awaiting ==>
      sp.to == |h.units| && Adjacent(h.calls, h.callOf[sp.to - 1], |h.calls|))
  }

  /** The sender may still send frames of the current generation. */
  predicate Live(s: State) {
    s.streaming && (s.running || s.place != Waiting)
  }

  /** While frames can still be sent: sent, in flight and queued make up the span. */
  ghost predicate Exact(s: State, h: History) {
    var sp := LastSpan(h);
    Live(s) && sp.from <= sp.to <= |h.packets| ==>
      PacketsOf(FreshOf(s.log, s.generation)) + Left(s.inFlight, s.generation) + Backlog(s.queue)
      == Flatten(h.packets[sp.from..sp.to])
  }

  ghost predicate Past(s: State) {
    forall a :: a in s.log ==> a.generation <= s.generation
  }

  ghost predicate AllSafe(s: State, h: History) {
    forall k :: 0 <= k <= s.generation ==> Safe(h, s.log, k)
  }

  ghost predicate Flowing(g: Config, s: State, h: History) {
    Ledger(g, s, h) && Gate(s, h) && Exact(s, h) && Past(s) && AllSafe(s, h)
  }

  // ------------------------------------------------------------ what a step does to them

  lemma FreshOfSnoc(log: seq<Act>, a: Act, k: nat)
    ensures FreshOf(log + [a], k) == FreshOf(log, k) +
      if a.Fresh? && a.generation == k then [Record(NumberOf(a.packet), Entry(a.packet, a.recordedAt))] else []
  {
    assert (log + [a])[..|log|] == log;
  }

  lemma {:induction false} FreshOfNone(log: seq<Act>, k: nat)
    requires forall a :: a in log ==> a.generation < k
    ensures FreshOf(log, k) == []
  {
    if log != [] {
      FreshOfNone(log[..|log| - 1], k);
    }
  }

  lemma {:induction false} BacklogSnoc(queue: seq<VideoFrame>, f: VideoFrame)
    ensures Backlog(queue + [f]) == Backlog(queue) + f.packets
  {
    if queue == [] {
      assert queue + [f] == [f];
    } else {
      assert (queue + [f])[1..] == queue[1..] + [f];
      BacklogSnoc(queue[1..], f);
    }
  }

  /** History only grows. */
  ghost predicate Grown(h: History, h': History) {
    && h.calls <= h'.calls && h.units <= h'.units && h.callOf <= h'.callOf && h.packets <= h'.packets
    && |h'.units| == |h'.callOf| == |h'.packets|
    && forall u :: 0 <= u < |h.callOf| ==> h.callOf[u] < |h.calls|
  }

  lemma SafeGrown(h: History, h': History, log: seq<Act>, log': seq<Act>, k: nat)
    requires Safe(h, log, k) && Grown(h, h') && k < |h'.spans| && h'.spans[k] == h.spans[k]
    requires FreshOf(log', k) == FreshOf(log, k)
    ensures Safe(h', log', k)
  {
    var sp := h.spans[k];
    assert h'.packets[sp.from..sp.to] == h.packets[sp.from..sp.to];
  }

  /** Steps that leave the stream alone. */
  lemma SteadyFlow(g: Config, s: State, h: History, s': State, h': History)
    requires Flowing(g, s, h) && h' == h.(clock := h'.clock)
    requires s'.generation == s.generation && s'.queue == s.queue && s'.awaiting == s.awaiting && s'.seqNo == s.seqNo
    requires s'.streaming == s.streaming && s'.resetDue == s.resetDue
    requires Left(s'.inFlight, s.generation) == Left(s.inFlight, s.generation)
             || (Left(s'.inFlight, s.generation) == [] && !Live(s'))
    requires Live(s') ==> Live(s)
    requires s'.log == s.log || exists a: Act :: s'.log == s.log + [a] && a.Repair? && a.generation <= s.generation
    ensures Flowing(g, s', h')
  {
    hide Ledger, Left, Backlog, Safe;
    forall k ensures FreshOf(s'.log, k) == FreshOf(s.log, k) {
      if s'.log != s.log {
        var a: Act :| s'.log == s.log + [a] && a.Repair? && a.generation <= s.generation;
        FreshOfSnoc(s.log, a, k);
      }
    }
    assert Ledger(g, s', h') by { SteadyLedger(g, s, h, s', h'); }
    forall k | 0 <= k <= s.generation ensures Safe(h', s'.log, k) {
      assert Safe(h, s.log, k);
      SteadySafe(g, s, h, s', h', k);
    }
  }

  lemma SteadyLedger(g: Config, s: State, h: History, s': State, h': History)
    requires Ledger(g, s, h) && h' == h.(clock := h'.clock) && s'.seqNo == s.seqNo
    ensures Ledger(g, s', h')
  {
  }

  lemma SteadySafe(g: Config, s: State, h: History, s': State, h': History, k: nat)
    requires Safe(h, s.log, k) && h' == h.(clock := h'.clock) && FreshOf(s'.log, k) == FreshOf(s.log, k)
    ensures Safe(h', s'.log, k)
  {
  }

  /** Everything queued is abandoned: a generation begins, empty. */
  lemma AbandonedFlow(g: Config, s: State, h: History, s': State, h': History)
    requires Flowing(g, s, h) && h' == h.(clock := h'.clock, spans := h.spans + [Span(|h.units|, |h.units|)])
    requires s'.generation == s.generation + 1 && s'.queue == [] && s'.awaiting
    requires s'.seqNo == s.seqNo && s'.log == s.log
    requires s'.streaming ==> !s'.resetDue
    requires s'.inFlight.Some? ==> s'.inFlight.value.frame.generation <= s.generation
    ensures Flowing(g, s', h')
  {
    hide Ledger, Safe;
    assert Ledger(g, s', h') by { LedgerMeans(g, s, h); LedgerAbandoned(g, s, h, s', h'); }
    FreshOfNone(s.log, s'.generation);
    LedgerMeans(g, s, h);
    forall k | 0 <= k <= s'.generation ensures Safe(h', s'.log, k) {
      if k <= s.generation {
        assert Safe(h, s.log, k);
        assert h'.spans[k] == h.spans[k];
        SafeGrown(h, h', s.log, s'.log, k);
      } else {
        SafeEmpty(h', s'.log, k);
      }
    }
  }

  lemma LedgerMeans(g: Config, s: State, h: History)
    requires Ledger(g, s, h)
    ensures Grown(h, h)
  {
  }

  lemma LedgerAbandoned(g: Config, s: State, h: History, s': State, h': History)
    requires Ledger(g, s, h) && s'.seqNo == s.seqNo && h' == h.(clock := h'.clock, spans := h'.spans)
    ensures Ledger(g, s', h')
  {
  }

  lemma SafeEmpty(h: History, log: seq<Act>, k: nat)
    requires k < |h.spans| && h.spans[k] == Span(|h.units|, |h.units|) && |h.units| == |h.callOf| == |h.packets|
    requires FreshOf(log, k) == []
    ensures Safe(h, log, k)
  {
  }

  lemma FrameTakenFlow(g: Config, s: State, h: History)
    requires Flowing(g, s, h) && s.queue != [] && s.queue[0].generation == s.generation && s.inFlight.None?
    requires s.place == Repaired
    ensures Flowing(g, FrameTaken(s), h)
  {
    hide Ledger, Safe;
    var s' := FrameTaken(s);
    SteadyLedger(g, s, h, s', h);
    var sent := PacketsOf(FreshOf(s.log, s.generation));
    assert Left(s'.inFlight, s'.generation) == s.queue[0].packets;
    assert sent + [] + Backlog(s.queue) == sent + s.queue[0].packets + Backlog(s.queue[1..]);
  }

  /** What has been sent grows by the packet that is no longer left. */
  lemma FreshSentExact(s: State, h: History, f: InFlight, now: int, recordedAt: int)
    requires Exact(s, h) && s.inFlight == Some(f) && f.next < |f.frame.packets| && s.place == Repaired
    requires s.streaming && f.frame.generation == s.generation && Consecutive(h, LastSpan(h))
    ensures var s' := FreshSent(s, f, f.frame.packets[f.next], now, recordedAt); var sp := LastSpan(h);
      Exact(s', h) && PacketsOf(FreshOf(s'.log, s.generation)) <= Flatten(h.packets[sp.from..sp.to])
  {
    hide Recorded, Flatten, FreshOf, Backlog;
    var p := f.frame.packets[f.next];
    var s' := FreshSent(s, f, p, now, recordedAt);
    FreshOfSnoc(s.log, Fresh(s.generation, f.next, p, now, f.frame.deadline, recordedAt), s.generation);
    var rs := FreshOf(s.log, s.generation);
    assert PacketsOf(rs + [Record(NumberOf(p), Entry(p, recordedAt))]) == PacketsOf(rs) + [p];
    assert Left(s.inFlight, s.generation) == [p] + Left(s'.inFlight, s.generation);
    assert PacketsOf(rs) + ([p] + Left(s'.inFlight, s.generation)) + Backlog(s.queue)
        == (PacketsOf(rs) + [p]) + Left(s'.inFlight, s.generation) + Backlog(s.queue);
  }

  lemma FreshSentFlow(g: Config, s: State, h: History, f: InFlight, now: int, recordedAt: int)
    requires Flowing(g, s, h) && s.inFlight == Some(f) && f.next < |f.frame.packets| && s.place == Repaired
    requires s.streaming && f.frame.generation == s.generation
    ensures Flowing(g, FreshSent(s, f, f.frame.packets[f.next], now, recordedAt), h)
  {
    hide Ledger, Recorded, FreshOf, PacketsOf, Flatten, Consecutive, Exact;
    var p := f.frame.packets[f.next];
    var s' := FreshSent(s, f, p, now, recordedAt);
    var a := Fresh(s.generation, f.next, p, now, f.frame.deadline, recordedAt);
    SteadyLedger(g, s, h, s', h);
    LedgerMeans(g, s, h);
    assert Safe(h, s.log, s.generation);
    FreshSentExact(s, h, f, now, recordedAt);
    SafeSent(h, s.log, s'.log, s.generation);
    hide Safe;
    forall k | 0 <= k < s.generation ensures Safe(h, s'.log, k) {
      assert Safe(h, s.log, k);
      FreshOfSnoc(s.log, a, k);
      SafeGrown(h, h, s.log, s'.log, k);
    }
  }

  lemma SafeSent(h: History, log: seq<Act>, log': seq<Act>, k: nat)
    requires Safe(h, log, k) && PacketsOf(FreshOf(log', k)) <= Flatten(h.packets[h.spans[k].from..h.spans[k].to])
    ensures Safe(h, log', k)
  {
  }

  lemma DetachedFlow(g: Config, s: State, h: History, connected: bool)
    requires Flowing(g, s, h)
    ensures Flowing(g, Detached(s, connected), h)
  {
    hide Ledger, Safe;
    SteadyLedger(g, s, h, Detached(s, connected), h);
  }

  lemma AnnouncedFlow(g: Config, s: State, h: History)
    requires Flowing(g, s, h) && !s.resetDue
    ensures Flowing(g, Announced(s), h)
  {
    hide Ledger;
    SteadyLedger(g, s, h, Announced(s), h);
    assert Safe(h, s.log, s.generation);
  }

  // --------------------------------------------------------------- a unit is packetized

  ghost predicate Packetized(g: Config, s: State, h: History, u: Unit, ps: seq<Packet>) {
    ps == PacketsFor(g, s, u.data, u.ptsUsec) && ps != []
  }

  function Numbered(s: State, ps: seq<Packet>): State {
    s.(seqNo := (s.seqNo + |ps|) % TWO16)
  }

  /** What the history gains, spans apart. */
  function Noted(h: History, u: Unit, key: bool, ps: seq<Packet>): History {
    h.(calls := h.calls + [Call(u, key)], units := h.units + [u], packets := h.packets + [ps],
       callOf := h.callOf + [|h.calls|])
  }

  lemma NoPacketsNoUnits(g: Config, s: State, data: seq<byte>, ptsUsec: int)
    requires Configured(g) && 0 <= s.seqNo < TWO16
    ensures PacketsFor(g, s, data, ptsUsec) == [] <==> Nals(data) == []
  {
    hide Nals;
  }

  lemma SentNoted(g: Config, units: seq<Unit>, packets: seq<seq<Packet>>, u: Unit, ps: seq<Packet>)
    requires Configured(g) && Flatten(packets) == E.Sent(g.codec, g.ssrc, units, 0)
    requires ps == UnitPackets(g.codec, u.data, u.ptsUsec, |Flatten(packets)| % TWO16, g.ssrc)
    ensures Flatten(packets + [ps]) == E.Sent(g.codec, g.ssrc, units + [u], 0)
  {
    hide UnitPackets;
    FlattenSnoc(packets, ps);
    assert (units + [u])[..|units|] == units;
  }

  lemma MatchedNoted(h: History, u: Unit, key: bool, ps: seq<Packet>)
    requires Matched(h) && Nals(u.data) != []
    ensures Matched(Noted(h, u, key, ps))
  {
    hide Nals;
  }

  lemma SizedNoted(g: Config, s: State, h: History, u: Unit, key: bool, ps: seq<Packet>)
    requires Configured(g) && 0 <= s.seqNo < TWO16 && Sized(g, h) && Packetized(g, s, h, u, ps)
    ensures Sized(g, Noted(h, u, key, ps))
  {
    E.UnitPacketsCount(g.codec, g.ssrc, u, s.seqNo);
    hide E.Parts, UnitPackets;
  }

  lemma LedgerNoted(g: Config, s: State, h: History, u: Unit, key: bool, ps: seq<Packet>, s': State, h': History)
    requires Ledger(g, s, h) && Packetized(g, s, h, u, ps)
    requires s'.seqNo == Numbered(s, ps).seqNo && h' == Noted(h, u, key, ps).(spans := h'.spans, clock := h'.clock)
    ensures Ledger(g, s', h') && Grown(h, h')
  {
    hide Nals, UnitPackets, E.Sent, Flatten;
    NoPacketsNoUnits(g, s, u.data, u.ptsUsec);
    assert Grown(h, h');
    MatchedNoted(h, u, key, ps);
    SizedNoted(g, s, h, u, key, ps);
    hide Matched, Grown, Sized;
    SentNoted(g, h.units, h.packets, u, ps);
    FlattenSnoc(h.packets, ps);
    CountOn(|Flatten(h.packets)|, |ps|);
  }

  /** Packetized, but not queued: the keyframe is still awaited. */
  lemma DroppedFlow(g: Config, s: State, h: History, u: Unit, key: bool, ps: seq<Packet>, s': State, h': History)
    requires Flowing(g, s, h) && Packetized(g, s, h, u, ps) && s.awaiting
    requires s' == Numbered(s, ps) && h' == Noted(h, u, key, ps)
    ensures Flowing(g, s', h')
  {
    hide Ledger, Safe, Packetized;
    LedgerNoted(g, s, h, u, key, ps, s', h');
    var sp := LastSpan(h);
    assert h'.packets[sp.from..sp.to] == h.packets[sp.from..sp.to];
    forall k | 0 <= k <= s.generation ensures Safe(h', s'.log, k) {
      assert Safe(h, s.log, k);
      SafeGrown(h, h', s.log, s'.log, k);
    }
  }

  lemma SliceSnoc<T>(s: seq<T>, x: T, from: nat)
    requires from <= |s|
    ensures (s + [x])[from..|s| + 1] == s[from..|s|] + [x]
  {
  }

  /** A unit more in the current span. */
  lemma SpanPushed(h: History, u: Unit, key: bool, ps: seq<Packet>, h': History)
    requires h.spans != [] && |h.units| == |h.callOf| == |h.packets|
    requires h' == Noted(h, u, key, ps).(spans := Extended(h.spans, |h.units|))
    requires var sp := LastSpan(h);
      && Consecutive(h, sp)
      && (sp.from == sp.to ==> key)
      && (sp.from < sp.to ==> sp.to == |h.units| && Adjacent(h.calls, h.callOf[sp.to - 1], |h.calls|))
      && Grown(h, h)
    ensures Consecutive(h', LastSpan(h'))
    ensures var sp, sp' := LastSpan(h), LastSpan(h');
      Flatten(h'.packets[sp'.from..sp'.to]) == Flatten(h.packets[sp.from..sp.to]) + ps
  {
    hide Flatten;
    var sp, sp', n := LastSpan(h), LastSpan(h'), |h.units|;
    assert sp' == if sp.from == sp.to then Span(n, n + 1) else Span(sp.from, n + 1);
    SliceSnoc(h.packets, ps, if sp.from == sp.to then n else sp.from);
    assert sp.from == sp.to ==> h.packets[sp.from..sp.to] == h.packets[n..n] == [];
    assert h'.packets[sp'.from..sp'.to] == h.packets[sp.from..sp.to] + [ps];
    FlattenSnoc(h.packets[sp.from..sp.to], ps);
    forall v | sp'.from <= v < sp'.to - 1
      ensures Adjacent(h'.calls, h'.callOf[v], h'.callOf[v + 1])
    {
      if v + 1 < n {
        assert Adjacent(h.calls, h.callOf[v], h.callOf[v + 1]);
      }
    }
  }

  lemma PushedFlow(g: Config, s: State, h: History, u: Unit, key: bool, ps: seq<Packet>, deadline: int,
                   s': State, h': History)
    requires Flowing(g, s, h) && Packetized(g, s, h, u, ps) && s.streaming && (s.awaiting ==> key)
    requires s' == Pushed(Numbered(s, ps), ps, deadline)
    requires h.spans != [] && h' == Noted(h, u, key, ps).(spans := Extended(h.spans, |h.units|))
    ensures Flowing(g, s', h')
  {
    hide Ledger, Packetized, Consecutive, Flatten;
    assert Safe(h, s.log, s.generation);
    LedgerNoted(g, s, h, u, key, ps, s', h');
    LedgerMeans(g, s, h);
    SpanPushed(h, u, key, ps, h');
    BacklogSnoc(s.queue, VideoFrame(ps, deadline, s.generation));
    PushedSafe(s, h, h', ps);
    var sent := PacketsOf(FreshOf(s.log, s.generation));
    var left := Left(s.inFlight, s.generation);
    assert sent + left + (Backlog(s.queue) + ps) == sent + left + Backlog(s.queue) + ps;
  }

  lemma PushedSafe(s: State, h: History, h': History, ps: seq<Packet>)
    requires AllSafe(s, h) && Grown(h, h') && |h.spans| == |h'.spans| == s.generation + 1
    requires forall k :: 0 <= k < s.generation ==> h'.spans[k] == h.spans[k]
    requires Consecutive(h', LastSpan(h')) && LastSpan(h').from <= LastSpan(h').to <= |h'.packets|
    requires LastSpan(h).from <= LastSpan(h).to <= |h.packets|
    requires Flatten(h'.packets[LastSpan(h').from..LastSpan(h').to]) ==
      Flatten(h.packets[LastSpan(h).from..LastSpan(h).to]) + ps
    ensures AllSafe(s, h')
  {
    hide Consecutive, Flatten, Grown;
    forall k | 0 <= k <= s.generation ensures Safe(h', s.log, k) {
      assert Safe(h, s.log, k);
      if k < s.generation {
        SafeGrown(h, h', s.log, s.log, k);
      }
    }
  }

  lemma AllSafeGrown(s: State, h: History, h': History)
    requires AllSafe(s, h) && Grown(h, h') && h'.spans == h.spans
    ensures AllSafe(s, h')
  {
    hide Consecutive, Grown;
    forall k | 0 <= k <= s.generation ensures Safe(h', s.log, k) {
      assert Safe(h, s.log, k);
      SafeGrown(h, h', s.log, s.log, k);
    }
  }

  lemma CallLedger(g: Config, s: State, h: History, call: Call, clock: int)
    requires Ledger(g, s, h)
    ensures Ledger(g, s.(capture := None), h.(clock := clock, calls := h.calls + [call]))
    ensures Grown(h, h.(clock := clock, calls := h.calls + [call]))
  {
  }

  /** A call that is turned away, or brings no unit. */
  lemma TurnedAwayFlow(g: Config, s: State, h: History, e: Event, s': State, h': History)
    requires Flowing(g, s, h) && e.Offer? && s.capture.Some? && !Took(g, s, e)
    requires s' == s.(capture := None)
    requires h' == h.(clock := e.now, calls := h.calls + [Call(E.Unit(e.data, e.ptsUsec), e.keyframe)])
    ensures Flowing(g, s', h')
  {
    hide AllSafe, PacketsFor, FreshOf, Backlog, Left, Nals, Adjacent, Grown, Ledger, Flatten, PacketsOf;
    var call := Call(E.Unit(e.data, e.ptsUsec), e.keyframe);
    CallLedger(g, s, h, call, e.now);
    LedgerNumber(g, s, h);
    NoPacketsNoUnits(g, s, e.data, e.ptsUsec);
    if Accepting(s, e.keyframe) && !s.awaiting {
      AdjacentCall(h.calls, call, h.callOf[LastSpan(h).to - 1]);
    }
    AllSafeGrown(s, h, h');
    AllSafeSame(s, h', s');
  }

  lemma LedgerNumber(g: Config, s: State, h: History)
    requires Ledger(g, s, h)
    ensures Configured(g) && 0 <= s.seqNo < TWO16
  {
  }

  lemma AdjacentCall(calls: seq<Call>, call: Call, a: int)
    requires Adjacent(calls, a, |calls|) && Nals(call.unit.data) == []
    ensures Adjacent(calls + [call], a, |calls + [call]|)
  {
  }

  lemma AllSafeSame(s: State, h: History, s': State)
    requires AllSafe(s, h) && s'.log == s.log && s'.generation == s.generation
    ensures AllSafe(s', h)
  {
  }

  ghost function NotedQueued(h: History, u: Unit, key: bool, ps: seq<Packet>, queued: bool): History {
    var h' := Noted(h, u, key, ps);
    if queued && h.spans != [] then h'.(spans := Extended(h.spans, |h.units|)) else h'
  }

  lemma AdmittedFlow(g: Config, s: State, h: History, u: Unit, key: bool, ps: seq<Packet>, deadline: int)
    requires Flowing(g, s, h) && Packetized(g, s, h, u, ps) && s.streaming && (|ps| > MAX_QUEUED ==> s.awaiting)
    ensures var s' := Admitted(Numbered(s, ps), ps, deadline, key);
      Flowing(g, s', NotedQueued(h, u, key, ps, !s'.awaiting))
  {
    hide Flowing, Packetized, Pushed;
    FlowingGate(g, s, h);
    if (s.awaiting && !key) || |ps| > MAX_QUEUED {
      DroppedFlow(g, s, h, u, key, ps, Numbered(s, ps), Noted(h, u, key, ps));
    } else {
      var s' := Pushed(Numbered(s, ps), ps, deadline);
      PushedFlow(g, s, h, u, key, ps, deadline, s', NotedQueued(h, u, key, ps, true));
      assert !Pushed(Numbered(s, ps), ps, deadline).awaiting by { PushedMeans(Numbered(s, ps), ps, deadline); }
    }
  }

  lemma PushedMeans(s: State, ps: seq<Packet>, deadline: int)
    ensures !Pushed(s, ps, deadline).awaiting && Pushed(s, ps, deadline).generation == s.generation
  {
  }

  lemma FlowingGate(g: Config, s: State, h: History)
    requires Flowing(g, s, h)
    ensures Gate(s, h) && h.spans != [] && Configured(g) && 0 <= s.seqNo < TWO16
  {
  }

  lemma PacketizedStill(g: Config, s: State, h: History, s': State, h': History, u: Unit, ps: seq<Packet>)
    requires Packetized(g, s, h, u, ps) && s'.seqNo == s.seqNo
    ensures Packetized(g, s', h', u, ps)
  {
  }

  lemma EnqueuedFlow(g: Config, s: State, h: History, u: Unit, key: bool, ps: seq<Packet>, deadline: int, now: int)
    requires Flowing(g, s, h) && Packetized(g, s, h, u, ps) && s.streaming && s.queued >= 0
    requires s.inFlight.Some? ==> s.inFlight.value.frame.generation <= s.generation
    ensures var s' := Enqueued(Numbered(s, ps), ps, deadline, key, now);
      var h1 := if s'.generation > s.generation then h.(spans := h.spans + [Span(|h.units|, |h.units|)]) else h;
      Flowing(g, s', NotedQueued(h1, u, key, ps, !s'.awaiting))
  {
    hide Flowing, Admitted, NotedQueued, Pushed, Packetized;
    FlowingGate(g, s, h);
    if Overdue(Numbered(s, ps), |ps|, now) {
      var s1, h1 := Abandoned(s), h.(spans := h.spans + [Span(|h.units|, |h.units|)]);
      AbandonedFlow(g, s, h, s1, h1);
      assert Abandoned(Numbered(s, ps)) == Numbered(s1, ps);
      PacketizedStill(g, s, h, s1, h1, u, ps);
      AdmittedFlow(g, s1, h1, u, key, ps, deadline);
      AdmittedMeans(Numbered(s1, ps), ps, deadline, key);
    } else {
      AdmittedFlow(g, s, h, u, key, ps, deadline);
      AdmittedMeans(Numbered(s, ps), ps, deadline, key);
    }
  }

  lemma AdmittedMeans(s: State, ps: seq<Packet>, deadline: int, key: bool)
    ensures Admitted(s, ps, deadline, key).generation == s.generation
  {
  }

  lemma OfferedFlow(g: Config, s: State, h: History, e: Event, clock: int)
    requires Flowing(g, s, h) && Books(s, clock) && e.Offer? && Enabled(s, e)
    ensures var s' := Offered(g, s, e.data, e.ptsUsec, e.keyframe, e.now);
      Flowing(g, s', Observed(g, s, h, e, s'))
  {
    hide Flowing, Books, Enqueued, PacketsFor, Extended;
    var u := E.Unit(e.data, e.ptsUsec);
    var ps := PacketsFor(g, s, e.data, e.ptsUsec);
    var s0, h0 := s.(capture := None), h.(clock := e.now);
    if !Took(g, s, e) {
      TurnedAwayFlow(g, s, h, e, s0, h0.(calls := h.calls + [Call(u, e.keyframe)]));
    } else {
      assert Flowing(g, s0, h0) by { RecapturedFlow(g, s, h, s0, h0); }
      BooksMeans(s, clock);
      assert Packetized(g, s0, h0, u, ps) by { SamePackets(g, s, s0, e.data, e.ptsUsec); }
      FlowingGate(g, s, h);
      EnqueuedFlow(g, s0, h0, u, e.keyframe, ps, s.capture.value, e.now);
    }
  }

  lemma SamePackets(g: Config, s: State, s': State, data: seq<byte>, ptsUsec: int)
    requires s.seqNo == s'.seqNo
    ensures PacketsFor(g, s, data, ptsUsec) == PacketsFor(g, s', data, ptsUsec)
  {
  }

  lemma BooksMeans(s: State, clock: int)
    requires Books(s, clock)
    ensures s.queued >= 0 && (s.inFlight.Some? ==> s.inFlight.value.frame.generation <= s.generation)
    ensures s.queue != [] ==> s.queue[0].generation == s.generation
    ensures s.place == Waiting ==> s.inFlight.None?
  {
    if s.queue != [] {
      assert s.queue[0] in s.queue;
    }
  }

  lemma RecapturedFlow(g: Config, s: State, h: History, s': State, h': History)
    requires Flowing(g, s, h) && s' == s.(capture := s'.capture) && h' == h.(clock := h'.clock)
    ensures Flowing(g, s', h')
  {
    hide Flowing;
    SteadyFlow(g, s, h, s', h');
  }

  lemma FreshTriedFlow(g: Config, s: State, h: History, e: Event, clock: int)
    requires Flowing(g, s, h) && Books(s, clock) && e.TryFresh? && Enabled(s, e)
    ensures var s' := Done(g, s, e); Flowing(g, s', Observed(g, s, h, e, s'))
  {
    hide Flowing, Books, Recorded, Left;
    BooksMeans(s, clock);
    FlowingGate(g, s, h);
    var f, n := s.inFlight.value, |h.units|;
    var h' := h.(clock := e.recordedAt);
    if !s.streaming || f.frame.generation != s.generation {
      LeftNone(s);
      SteadyFlow(g, s, h, FrameDropped(s), h');
    } else if e.granted && e.now < f.frame.deadline && e.accepted {
      FreshSentFlow(g, s, h, f, e.now, e.recordedAt);
      var s1 := FreshSent(s, f, f.frame.packets[f.next], e.now, e.recordedAt);
      RecapturedFlow(g, s1, h, s1, h');
    } else {
      AbandonedFlow(g, s, h, FrameDropped(Abandoned(s)), h'.(spans := h.spans + [Span(n, n)]));
    }
  }

  lemma LeftNone(s: State)
    ensures Left(None, s.generation) == []
    ensures s.inFlight.Some? && s.inFlight.value.frame.generation != s.generation ==>
      Left(s.inFlight, s.generation) == []
    ensures s.inFlight.Some? && s.inFlight.value.next >= |s.inFlight.value.frame.packets| ==>
      Left(s.inFlight, s.generation) == []
  {
  }

  lemma TakeFrameFlow(g: Config, s: State, h: History, clock: int)
    requires Flowing(g, s, h) && Books(s, clock) && Enabled(s, TakeFrame)
    ensures Flowing(g, FrameTaken(s), h)
  {
    hide Flowing, Books;
    BooksMeans(s, clock);
    if s.queue != [] {
      FrameTakenFlow(g, s, h);
    } else {
      SteadyFlow(g, s, h, FrameTaken(s), h);
    }
  }

  lemma AdvanceFlow(g: Config, s: State, h: History)
    requires Flowing(g, s, h) && s.inFlight.Some? && s.place == Stepping
    ensures Flowing(g, Advanced(s, s.inFlight.value), h)
  {
    hide Flowing;
    SteadyFlow(g, s, h, Advanced(s, s.inFlight.value), h);
  }

  predicate Quiet(e: Event) {
    e.Stop? || e.BeginCapture? || e.Voice? || e.Request? || e.Wake? || e.TakeRepair?
  }

  lemma QuietFlow(g: Config, s: State, h: History, e: Event)
    requires Flowing(g, s, h) && Enabled(s, e) && Quiet(e)
    ensures Flowing(g, Done(g, s, e), h.(clock := Latest(h.clock, e)))
    ensures Done(g, s, e).generation == s.generation
  {
    hide Flowing, Left, Recorded, Retained, Queued;
    SteadyFlow(g, s, h, Done(g, s, e), h.(clock := Latest(h.clock, e)));
  }

  lemma TryRepairFlow(g: Config, s: State, h: History, e: Event)
    requires e.TryRepair? && Enabled(s, e) && s.place.repair.generation <= s.generation
    requires Flowing(g, s, h)
    ensures Flowing(g, Done(g, s, e), h.(clock := e.now))
  {
    hide Flowing, Left;
    var s' := RepairTried(s, s.place.tried, s.place.repair, e.granted, e.now, e.accepted);
    SteadyFlow(g, s, h, s', h.(clock := e.now));
  }

  lemma FlowKept(g: Config, w: World, e: Event)
    requires Flowing(g, w.s, w.h) && Books(w.s, w.h.clock)
    requires w.s.place.Holding? ==> w.s.place.repair.generation <= w.s.generation
    ensures Flowing(g, Next(g, w, e).s, Next(g, w, e).h)
  {
    hide Flowing, Books, Offered, FreshTried, FrameTaken, RepairTried, Advanced, Took;
    var s, h := w.s, w.h;
    if Enabled(s, e) && OnTime(h.clock, e) {
      if e.Offer? {
        OfferedFlow(g, s, h, e, h.clock);
      } else if e.TryFresh? {
        FreshTriedFlow(g, s, h, e, h.clock);
      } else {
        OtherFlow(g, w, e);
      }
    }
  }

  lemma OtherFlow(g: Config, w: World, e: Event)
    requires Flowing(g, w.s, w.h) && Books(w.s, w.h.clock) && Enabled(w.s, e) && !e.Offer? && !e.TryFresh?
    requires w.s.place.Holding? ==> w.s.place.repair.generation <= w.s.generation
    ensures var s' := Done(g, w.s, e); Flowing(g, s', Observed(g, w.s, w.h, e, s'))
  {
    hide Flowing, Books;
    var s, h := w.s, w.h;
    if Quiet(e) {
      hide Done;
      QuietFlow(g, s, h, e);
    } else if e.TakeFrame? {
      TakeFrameFlow(g, s, h, h.clock);
    } else if e.Advance? {
      AdvanceFlow(g, s, h);
    } else if e.TryRepair? {
      TryRepairFlow(g, s, h, e);
    } else if e.Detach? {
      DetachedFlow(g, s, h, e.connected);
    } else if e.Announce? {
      AnnouncedFlow(g, s, h);
    } else {
      BooksMeans(s, h.clock);
      AbandonedFlow(g, s, h, QueueReset(s), h.(spans := h.spans + [Span(|h.units|, |h.units|)]));
    }
  }
}
