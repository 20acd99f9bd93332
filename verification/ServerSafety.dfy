/**
 What holds of RtpServer after any run whatever: the main results about src/streamer/rtp_server.cpp.
 */
module ServerSafety {
  import opened Bytes
  import opened AnnexB
  import opened Rtp
  import opened Packetizer
  import R = Retransmit
  import opened Server
  import opened ServerRuns
  import opened ServerRepairs
  import E = EndToEnd

  /** No packet of a frame was sent at or after the frame's deadline. */
  ghost predicate InTime(log: seq<Act>) {
    forall a :: a in log && a.Fresh? ==> a.at < a.deadline
  }

  ghost predicate Inv(g: Config, w: World) {
    && Books(w.s, w.h.clock) && Flowing(g, w.s, w.h) && Repairable(w.s) && Turns(w.s) && InTime(w.s.log)
  }

  lemma InitialInv(g: Config)
    requires Configured(g)
    ensures Inv(g, BEFORE)
  {
    var h := BEFORE.h;
    assert Safe(h, [], 0);
    assert E.Sent(g.codec, g.ssrc, [], 0) == [];
  }

  lemma InTimeKept(g: Config, s: State, e: Event)
    requires InTime(s.log) && Enabled(s, e)
    ensures InTime(Done(g, s, e).log)
  {
    hide R.Recorded, R.Retained, Queued, Offered;
    if e.Offer? {
      OfferedLog(g, s, e);
    }
  }

  lemma OfferedLog(g: Config, s: State, e: Event)
    requires e.Offer?
    ensures Offered(g, s, e.data, e.ptsUsec, e.keyframe, e.now).log == s.log
  {
    hide PacketsFor, Enqueued;
    var ps := PacketsFor(g, s, e.data, e.ptsUsec);
    if s.capture.Some? {
      EnqueuedKeeps(s.(capture := None, seqNo := (s.seqNo + |ps|) % TWO16), ps, s.capture.value, e.keyframe, e.now);
    }
  }

  lemma InvMeans(g: Config, w: World)
    requires Inv(g, w)
    ensures Past(w.s) && Placed(w.s.place, w.s.inFlight, w.s.generation)
    ensures w.s.place.Holding? ==> w.s.place.repair.generation <= w.s.generation
  {
  }

  lemma InvKept(g: Config, w: World, e: Event)
    requires Inv(g, w)
    ensures Inv(g, Next(g, w, e))
  {
    hide Books, Flowing, Repairable, Turns, InTime, Done, Past, Placed;
    InvMeans(g, w);
    BooksKept(g, w, e);
    FlowKept(g, w, e);
    if Enabled(w.s, e) {
      RepairsKept(g, w.s, e);
      TurnsKept(g, w.s, e);
      InTimeKept(g, w.s, e);
    }
  }

  lemma {:induction false} AlwaysInv(g: Config, es: seq<Event>)
    requires Configured(g)
    ensures Inv(g, Reached(g, es))
  {
    hide Inv, Next;
    if es == [] {
      InitialInv(g);
    } else {
      AlwaysInv(g, es[..|es| - 1]);
      InvKept(g, Reached(g, es[..|es| - 1]), es[|es| - 1]);
    }
  }

  // --------------------------------------------------------------------- main results

  /**
   Whatever the interleaving: the packets of frames sent under one generation are a prefix of the
   packets of consecutive units with something in them, the first of which came as a keyframe; and all
   packets ever made are numbered consecutively, as the packetizer's own counter numbers them.
   */
  lemma GenerationsAreSafe(g: Config, es: seq<Event>, k: nat)
    requires Configured(g) && k <= Reached(g, es).s.generation
    ensures var w := Reached(g, es); var h := w.h;
      && Safe(h, w.s.log, k)
      && |h.spans| == w.s.generation + 1
      && Flatten(h.packets) == E.Sent(g.codec, g.ssrc, h.units, 0)
      && Matched(h)
  {
    hide Reached, Books, Repairable, Turns, InTime, Safe;
    AlwaysInv(g, es);
  }

  /** The packet counter, the generations and the deadlines of what is queued. */
  lemma QueueIsAccounted(g: Config, es: seq<Event>, now: int)
    requires Configured(g)
    ensures var s := Reached(g, es).s;
      && s.queued == Total(s.queue) <= 4096
      && (forall f :: f in s.queue ==> f.generation == s.generation && f.packets != [])
      && ((exists f :: f in s.queue && now >= f.deadline) <==> (s.queue != [] && now >= s.queue[0].deadline))
      && (forall a :: a in s.log && a.Fresh? ==> a.at < a.deadline)
  {
    hide Reached, Flowing, Repairable, Turns, Total;
    AlwaysInv(g, es);
    var s := Reached(g, es).s;
    forall f | f in s.queue
      ensures s.queue[0].deadline <= f.deadline
    {
      var i :| 0 <= i < |s.queue| && s.queue[i] == f;
    }
    if s.queue != [] && now >= s.queue[0].deadline {
      assert s.queue[0] in s.queue;
    }
  }

  /**
   Every video repair put on the wire repeats, byte for byte, a packet recorded earlier in the same
   generation and less than 100 ms before; at most 64 repairs wait, all of the current generation, no
   two for the same packet; and a packet of a frame is at most four tries behind the one before it.
   */
  lemma RepairsAreSafe(g: Config, es: seq<Event>)
    requires Configured(g)
    ensures var s := Reached(g, es).s;
      && (forall k :: 0 <= k < |s.log| && s.log[k].Repair? && s.log[k].video && s.log[k].sent ==>
        exists j :: 0 <= j < k && Original(s.log[j], s.log[k]))
      && |s.repairs| <= 64
      && (forall r :: r in s.repairs ==> r.generation == s.generation)
      && (forall i, j :: 0 <= i < j < |s.repairs| ==> !Same(s.repairs[i], s.repairs[j]))
      && (forall k :: 0 <= k < |s.log| && s.log[k].Fresh? && s.log[k].index > 0 ==>
        Follows(s.log[..k], s.log[k].generation, s.log[k].index, 4))
  {
    hide Reached, Books, Flowing, Follows, Caches, Vouched, FreshOf, InTime, Original, Same;
    AlwaysInv(g, es);
    var s := Reached(g, es).s;
    forall k | 0 <= k < |s.log| && s.log[k].Repair? && s.log[k].video && s.log[k].sent
      ensures exists j :: 0 <= j < k && Original(s.log[j], s.log[k])
    {
      assert Answered(s.log, k);
    }
  }

  /** The step can be taken, and changes something. */
  ghost predicate Moves(g: Config, s: State, e: Event) {
    Enabled(s, e) && Done(g, s, e) != s
  }

  /**
   Unless the sender's thread sleeps with nothing to do, or has been told to end, it has a step to take
   that gets it somewhere.
   */
  lemma SenderIsNeverStuck(g: Config, es: seq<Event>, granted: bool, now: int, accepted: bool)
    requires Configured(g)
    ensures var s := Reached(g, es).s;
      || (s.place == Waiting && (!s.running || (s.queue == [] && s.repairs == [])))
      || Moves(g, s, Wake) || Moves(g, s, TakeRepair) || Moves(g, s, TryRepair(granted, now, accepted))
      || Moves(g, s, TakeFrame) || Moves(g, s, Advance) || Moves(g, s, TryFresh(granted, now, accepted, now))
  {
    hide Reached, Flowing, Repairable, Turns, InTime, Kept, Moves;
    AlwaysInv(g, es);
    SenderMoves(g, Reached(g, es).s, granted, now, accepted);
  }

  lemma SenderMoves(g: Config, s: State, granted: bool, now: int, accepted: bool)
    requires Placed(s.place, s.inFlight, s.generation)
    ensures
      || (s.place == Waiting && (!s.running || (s.queue == [] && s.repairs == [])))
      || Moves(g, s, Wake) || Moves(g, s, TakeRepair) || Moves(g, s, TryRepair(granted, now, accepted))
      || Moves(g, s, TakeFrame) || Moves(g, s, Advance) || Moves(g, s, TryFresh(granted, now, accepted, now))
  {
    hide Moves;
    match s.place
    case Waiting =>
      if s.running && (s.queue != [] || s.repairs != []) { WakeMoves(g, s); }
    case Repairing(_) => TakeRepairMoves(g, s);
    case Holding(_, _) => TryRepairMoves(g, s, granted, now, accepted);
    case Repaired =>
      if s.inFlight.None? { TakeFrameMoves(g, s); } else { TryFreshMoves(g, s, granted, now, accepted); }
    case Stepping => AdvanceMoves(g, s);
  }

  lemma WakeMoves(g: Config, s: State)
    requires s.place == Waiting && s.inFlight.None? && s.running && (s.queue != [] || s.repairs != [])
    ensures Moves(g, s, Wake)
  {
    assert Done(g, s, Wake).place == Repairing(0);
  }

  lemma TakeRepairMoves(g: Config, s: State)
    requires s.place.Repairing?
    ensures Moves(g, s, TakeRepair)
  {
    assert !Done(g, s, TakeRepair).place.Repairing?;
  }

  lemma TryRepairMoves(g: Config, s: State, granted: bool, now: int, accepted: bool)
    requires s.place.Holding?
    ensures Moves(g, s, TryRepair(granted, now, accepted))
  {
    assert Done(g, s, TryRepair(granted, now, accepted)).place.Repairing?;
  }

  lemma TakeFrameMoves(g: Config, s: State)
    requires s.place == Repaired && s.inFlight.None?
    ensures Moves(g, s, TakeFrame)
  {
    assert Done(g, s, TakeFrame).place != Repaired;
  }

  lemma TryFreshMoves(g: Config, s: State, granted: bool, now: int, accepted: bool)
    requires s.place == Repaired && s.inFlight.Some? && s.inFlight.value.next < |s.inFlight.value.frame.packets|
    ensures Moves(g, s, TryFresh(granted, now, accepted, now))
  {
    hide Abandoned, R.Recorded;
    assert Done(g, s, TryFresh(granted, now, accepted, now)).place != Repaired;
  }

  lemma AdvanceMoves(g: Config, s: State)
    requires s.place == Stepping && s.inFlight.Some?
    ensures Moves(g, s, Advance)
  {
    assert Done(g, s, Advance).place != Stepping;
  }

  lemma NumberOfSent(c: Codec, ssrc: int, units: seq<Unit>, n: nat)
    requires 0 <= ssrc < TWO32 && n < E.Count(c, units)
    ensures NumberOf(E.Sent(c, ssrc, units, 0)[n]) == n % TWO16
  {
    hide E.Sent, UnitPackets, E.Count, Nals, Payloads, Parse, Stamp, NumberAt;
    var u, j := E.Locate(c, units, n);
    E.SentIndex(c, ssrc, units, 0, n, u, j);
    var before := E.Count(c, units[..u]);
    UnitPacketsReadBack(c, units[u].data, units[u].ptsUsec, NumberAt(0, before), ssrc, j);
    NumberPast(before, j);
  }

  lemma NumberPast(before: nat, j: nat)
    ensures (NumberAt(0, before) + j) % TWO16 == (before + j) % TWO16
  {
    CountOn(before, j);
  }

  /** Where the packets of units from..to lie among all packets. */
  lemma SliceOfFlatten(packets: seq<seq<Packet>>, from: nat, to: nat)
    requires from <= to <= |packets|
    ensures var base := |Flatten(packets[..from])|; var part := Flatten(packets[from..to]);
      base + |part| <= |Flatten(packets)| && Flatten(packets)[base..base + |part|] == part
  {
    hide Flatten;
    FlattenConcat(packets[..from], packets[from..to]);
    FlattenConcat(packets[..to], packets[to..]);
    assert packets[..from] + packets[from..to] == packets[..to];
    assert packets[..to] + packets[to..] == packets;
  }

  /** How many packets were made before the units of generation k. */
  function Base(h: History, k: nat): nat {
    if k < |h.spans| && h.spans[k].from <= |h.packets| then |Flatten(h.packets[..h.spans[k].from])| else 0
  }

  /** The i-th packet sent under generation k lies at place base + i of everything packetized. */
  lemma FreshPlace(g: Config, w: World, k: nat, i: nat)
    requires Flowing(g, w.s, w.h) && k <= w.s.generation && i < |FreshOf(w.s.log, k)|
    ensures var base := Base(w.h, k);
      var all := E.Sent(g.codec, g.ssrc, w.h.units, 0);
      && base + i < |all| && FreshOf(w.s.log, k)[i].e.packet == all[base + i]
      && FreshOf(w.s.log, k)[i].s == (base + i) % TWO16
  {
    hide FreshOf, Flatten, E.Sent, Gate, Exact, E.Count, Past;
    assert Safe(w.h, w.s.log, k);
    FreshInStream(w.h, w.s.log, k, i);
    NumberOfSent(g.codec, g.ssrc, w.h.units, Base(w.h, k) + i);
    var j := FreshOfFrom(w.s.log, k, i);
  }

  lemma FreshInStream(h: History, log: seq<Act>, k: nat, i: nat)
    requires Safe(h, log, k) && i < |FreshOf(log, k)|
    ensures Base(h, k) + i < |Flatten(h.packets)|
    ensures var sp := h.spans[k];
      Base(h, k) + i < |Flatten(h.packets[..sp.from])| + |Flatten(h.packets[sp.from..sp.to])|
    ensures FreshOf(log, k)[i].e.packet == Flatten(h.packets)[Base(h, k) + i]
  {
    hide FreshOf, Flatten;
    var sp, rs := h.spans[k], FreshOf(log, k);
    SliceOfFlatten(h.packets, sp.from, sp.to);
    var base := |Flatten(h.packets[..sp.from])|;
    var part := Flatten(h.packets[sp.from..sp.to]);
    assert PacketsOf(rs)[i] == part[i] == Flatten(h.packets)[base..base + |part|][i];
  }

  /**
   The video cache answers a NACK with the newest packet sent under that number in this generation, if
   it is among the last 1024 sent, and with nothing otherwise, however often the numbers have wrapped.
   */
  lemma CacheIsTheLastPackets(g: Config, es: seq<Event>, n: int)
    requires Configured(g)
    ensures var s := Reached(g, es).s;
      var rs := FreshOf(s.log, s.generation);
      var i := R.Newest(rs, n);
      R.Retained(s.video, n) == if i >= 0 && |rs| - i <= 1024 then Some(rs[i].e) else None
  {
    hide Reached, Books, Turns, InTime, FreshOf, Flowing, Pending, AllAnswered, R.After, R.Newest, R.Retained;
    AlwaysInv(g, es);
    CacheOf(g, Reached(g, es), n);
  }

  lemma CacheOf(g: Config, w: World, n: int)
    requires Flowing(g, w.s, w.h) && Caches(w.s)
    ensures var rs := FreshOf(w.s.log, w.s.generation);
      var i := R.Newest(rs, n);
      R.Retained(w.s.video, n) == if i >= 0 && |rs| - i <= 1024 then Some(rs[i].e) else None
  {
    hide Flowing, FreshOf, R.After, E.Sent, Base, R.Retained;
    var rs := FreshOf(w.s.log, w.s.generation);
    var base := Base(w.h, w.s.generation);
    forall i | 0 <= i < |rs|
      ensures rs[i].s == (base + i) % TWO16
    {
      FreshPlace(g, w, w.s.generation, i);
    }
    R.CacheRefinesLog(VIDEO_WINDOW, rs, base, n);
  }

  /**
   A video NACK is answered by the packet sent under that number, if and only if the client is being
   streamed to, fewer than 64 repairs wait and none for that number, the packet is among the last 1024 sent in
   this generation, and it was recorded less than 100 ms ago; otherwise it changes nothing.
   */
  lemma NacksAreAnsweredExactly(g: Config, es: seq<Event>, n: int, now: int)
    requires Configured(g)
    ensures var s := Reached(g, es).s;
      var rs := FreshOf(s.log, s.generation);
      var i := R.Newest(rs, n);
      Requested(s, true, n, now) ==
        if s.streaming && |s.repairs| < 64 && !Queued(s.repairs, true, n)
           && i >= 0 && |rs| - i <= 1024 && now - rs[i].e.sentAt < 100
        then s.(repairs := s.repairs + [RepairPacket(rs[i].e.packet,
                  Min(rs[i].e.sentAt + 100, now + 20), s.generation, true)])
        else s
  {
    hide Reached, FreshOf, Queued;
    CacheIsTheLastPackets(g, es, n);
  }

  /** Place n of the stream holds a packet of a unit queued under generation k. */
  ghost predicate InSpan(g: Config, h: History, k: nat, n: int) {
    && k < |h.spans| && h.spans[k].from <= h.spans[k].to <= |h.units|
    && E.Count(g.codec, h.units[..h.spans[k].from]) <= n < E.Count(g.codec, h.units[..h.spans[k].to])
  }

  lemma {:induction false} CountIsFlatten(g: Config, h: History, u: nat)
    requires Sized(g, h) && u <= |h.units|
    ensures E.Count(g.codec, h.units[..u]) == |Flatten(h.packets[..u])|
    decreases u
  {
    hide E.Parts;
    if u > 0 {
      CountIsFlatten(g, h, u - 1);
      CountIsFlattenNext(g, h, u - 1);
    }
  }

  lemma CountIsFlattenNext(g: Config, h: History, u: nat)
    requires Sized(g, h) && u < |h.units| && E.Count(g.codec, h.units[..u]) == |Flatten(h.packets[..u])|
    ensures E.Count(g.codec, h.units[..u + 1]) == |Flatten(h.packets[..u + 1])|
  {
    hide E.Parts, E.Count, Flatten;
    E.CountSnoc(g.codec, h.units, u);
    assert h.packets[..u + 1] == h.packets[..u] + [h.packets[u]];
    FlattenSnoc(h.packets[..u], h.packets[u]);
  }

  lemma FreshInSpan(g: Config, w: World, k: nat, i: nat)
    requires Flowing(g, w.s, w.h) && k <= w.s.generation && i < |FreshOf(w.s.log, k)|
    ensures InSpan(g, w.h, k, Base(w.h, k) + i)
  {
    hide FreshOf, Flatten, E.Sent, Gate, Exact, E.Count, Past, Matched, Sized;
    assert Safe(w.h, w.s.log, k);
    FreshInStream(w.h, w.s.log, k, i);
    var sp := w.h.spans[k];
    CountIsFlatten(g, w.h, sp.from);
    CountIsFlatten(g, w.h, sp.to);
    FlattenConcat(w.h.packets[..sp.from], w.h.packets[sp.from..sp.to]);
    assert w.h.packets[..sp.to] == w.h.packets[..sp.from] + w.h.packets[sp.from..sp.to];
  }

  /** A packet that reached the wire: of a frame, or a video repair. */
  predicate OnWire(a: Act) {
    a.Fresh? || (a.video && a.sent)
  }

  /**
   Every video packet that ever reaches the wire, under whatever generation, first or again, is the
   packet at some place of the one stream that the packetizer numbered, in a unit of that generation.
   */
  lemma WireIsTheStream(g: Config, es: seq<Event>, k: nat) returns (n: nat)
    requires Configured(g) && k < |Reached(g, es).s.log| && OnWire(Reached(g, es).s.log[k])
    ensures var w := Reached(g, es); var all := E.Sent(g.codec, g.ssrc, w.h.units, 0);
      n < |all| && w.s.log[k].packet == all[n] && InSpan(g, w.h, w.s.log[k].generation, n)
  {
    hide InSpan, Reached, Books, Turns, InTime, Flatten, E.Sent, FreshOf, Caches, Pending, Flowing;
    AlwaysInv(g, es);
    var w := Reached(g, es);
    hide Inv;
    var j := SentFirst(w.s.log, k);
    n := FreshInStreamAt(g, w, j);
  }

  /** The packet of a log entry that reached the wire was sent by the same generation, first of all as a frame's. */
  lemma SentFirst(log: seq<Act>, k: nat) returns (j: nat)
    requires AllAnswered(log) && k < |log| && OnWire(log[k])
    ensures j < |log| && log[j].Fresh? && log[j].packet == log[k].packet && log[j].generation == log[k].generation
  {
    j := k;
    if log[k].Repair? {
      assert Answered(log, k);
      j :| 0 <= j < k && Original(log[j], log[k]);
    }
  }

  lemma FreshInStreamAt(g: Config, w: World, j: nat) returns (n: nat)
    requires Flowing(g, w.s, w.h) && j < |w.s.log| && w.s.log[j].Fresh?
    ensures var all := E.Sent(g.codec, g.ssrc, w.h.units, 0);
      n < |all| && w.s.log[j].packet == all[n] && InSpan(g, w.h, w.s.log[j].generation, n)
  {
    hide InSpan, Flatten, E.Sent, FreshOf, Flowing, Base;
    var i := FreshHolds(w.s.log, j);
    PastOf(g, w, j);
    FreshPlace(g, w, w.s.log[j].generation, i);
    FreshInSpan(g, w, w.s.log[j].generation, i);
    n := Base(w.h, w.s.log[j].generation) + i;
  }

  lemma PastOf(g: Config, w: World, j: nat)
    requires Flowing(g, w.s, w.h) && j < |w.s.log|
    ensures w.s.log[j].generation <= w.s.generation < |w.h.spans|
  {
    assert w.s.log[j] in w.s.log;
  }

  lemma {:induction false} FreshHolds(log: seq<Act>, j: nat) returns (i: nat)
    requires j < |log| && log[j].Fresh?
    ensures var rs := FreshOf(log, log[j].generation); i < |rs| && rs[i].e.packet == log[j].packet
  {
    var m := |log| - 1;
    if j < m {
      i := FreshHolds(log[..m], j);
    } else {
      i := |FreshOf(log[..m], log[j].generation)|;
    }
  }
}
