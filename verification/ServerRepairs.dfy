/**
 What RtpServer sends again: only what it has sent before in the same generation, in time, each packet
 queued at most once, and never more than four tries between two packets of a frame.
 */
module ServerRepairs {
  import opened Bytes
  import opened Rtp
  import opened Retransmit
  import opened Server
  import opened ServerRuns

  // ---------------------------------------------------------------- what repairs are made of

  /** The packet was recorded, and the deadline is within the age limit of that record. */
  ghost predicate Vouched(rs: seq<Record>, r: RepairPacket) {
    exists i :: 0 <= i < |rs| && rs[i].e.packet == r.packet && r.deadline <= rs[i].e.sentAt + MAX_SEND_AGE
  }

  /** Fit to be in the repair queue. */
  ghost predicate Fit(s: State, r: RepairPacket) {
    r.generation == s.generation && (r.video ==> Vouched(FreshOf(s.log, s.generation), r))
  }

  predicate Same(r: RepairPacket, q: RepairPacket) {
    r.video == q.video && NumberOf(r.packet) == NumberOf(q.packet)
  }

  ghost predicate AllDifferent(repairs: seq<RepairPacket>) {
    forall i, j :: 0 <= i < j < |repairs| ==> !Same(repairs[i], repairs[j])
  }

  ghost predicate AllFit(s: State, repairs: seq<RepairPacket>) {
    forall r :: r in repairs ==> Fit(s, r)
  }

  ghost predicate Pending(s: State) {
    && |s.repairs| <= MAX_REPAIRS && AllDifferent(s.repairs) && AllFit(s, s.repairs)
    && (s.place.Holding? ==> s.place.repair.generation <= s.generation
                             && (s.place.repair.generation == s.generation ==> Fit(s, s.place.repair)))
  }

  ghost predicate KeyedByNumber(b: Cache) {
    forall k :: k in b.packets ==> NumberOf(b.packets[k].packet) == k
  }

  /** The video cache is what recording this generation's packets would have left. */
  ghost predicate Caches(s: State) {
    s.video == After(VIDEO_WINDOW, FreshOf(s.log, s.generation)) && KeyedByNumber(s.audio)
  }

  /** This act, if it put a video repair on the wire, repeats a packet recorded less than 100 ms before. */
  ghost predicate Answered(log: seq<Act>, k: nat) {
    k < |log| && log[k].Repair? && log[k].video && log[k].sent ==>
      exists j :: 0 <= j < k && Original(log[j], log[k])
  }

  predicate Original(a: Act, b: Act) {
    a.Fresh? && b.Repair? && a.generation == b.generation && a.packet == b.packet && b.at < a.recordedAt + MAX_SEND_AGE
  }

  ghost predicate AllAnswered(log: seq<Act>) {
    forall k :: 0 <= k < |log| ==> Answered(log, k)
  }

  ghost predicate Repairable(s: State) {
    Pending(s) && Caches(s) && AllAnswered(s.log)
  }

  lemma {:induction false} FreshOfFrom(log: seq<Act>, g: nat, i: nat) returns (j: nat)
    requires i < |FreshOf(log, g)|
    ensures j < |log| && log[j].Fresh? && log[j].generation == g
    ensures var r := FreshOf(log, g)[i];
      r.e == Entry(log[j].packet, log[j].recordedAt) && r.s == NumberOf(r.e.packet)
  {
    var m := |log| - 1;
    if i < |FreshOf(log[..m], g)| {
      j := FreshOfFrom(log[..m], g, i);
    } else {
      j := m;
    }
  }

  /** Whatever the cache holds was recorded. */
  lemma {:induction false} CacheFrom(capacity: nat, log: seq<Record>, s: int) returns (i: nat)
    requires s in After(capacity, log).packets
    ensures i < |log| && log[i].s == s && log[i].e == After(capacity, log).packets[s]
  {
    var m := |log| - 1;
    var b := After(capacity, log[..m]);
    var b1 := Cache(b.packets[log[m].s := log[m].e],
                    if log[m].s in b.packets then b.order else b.order + [log[m].s]);
    EvictedShrinks(capacity, b1, s);
    if s == log[m].s {
      i := m;
    } else {
      i := CacheFrom(capacity, log[..m], s);
    }
  }

  lemma {:induction false} EvictedShrinks(capacity: nat, b: Cache, s: int)
    requires s in Evicted(capacity, b).packets
    ensures s in b.packets && b.packets[s] == Evicted(capacity, b).packets[s]
    decreases |b.order|
  {
    if |b.order| > capacity {
      EvictedShrinks(capacity, Cache(b.packets - {b.order[0]}, b.order[1..]), s);
    }
  }

  lemma RecordedKeyed(capacity: nat, b: Cache, p: Packet, at: int)
    requires KeyedByNumber(b)
    ensures KeyedByNumber(Recorded(capacity, b, NumberOf(p), Entry(p, at)))
  {
    var b1 := Cache(b.packets[NumberOf(p) := Entry(p, at)],
                    if NumberOf(p) in b.packets then b.order else b.order + [NumberOf(p)]);
    forall k | k in Evicted(capacity, b1).packets
      ensures NumberOf(Evicted(capacity, b1).packets[k].packet) == k
    {
      EvictedShrinks(capacity, b1, k);
    }
  }

  // ------------------------------------------------------------------ what the steps keep

  /** The request was granted a repair that is as fresh as its record. */
  lemma RequestedFit(s: State, video: bool, n: int, now: int)
    requires Caches(s)
    requires var e := Retained(if video then s.video else s.audio, n); e.Some? && now - e.value.sentAt < MAX_SEND_AGE
    ensures var e := Retained(if video then s.video else s.audio, n).value;
      var r := RepairPacket(e.packet, Min(e.sentAt + MAX_SEND_AGE, now + MAX_REPAIR_WAIT), s.generation, video);
      Fit(s, r) && NumberOf(e.packet) == n
  {
    hide After, FreshOf;
    if video {
      var rs := FreshOf(s.log, s.generation);
      var i := CacheFrom(VIDEO_WINDOW, rs, n);
      var j := FreshOfFrom(s.log, s.generation, i);
    }
  }

  lemma QueuedPush(repairs: seq<RepairPacket>, r: RepairPacket)
    requires AllDifferent(repairs) && !Queued(repairs, r.video, NumberOf(r.packet))
    ensures AllDifferent(repairs + [r])
  {
    forall i | 0 <= i < |repairs|
      ensures !Same(repairs[i], r)
    {
      assert repairs[i] in repairs;
    }
  }

  lemma RequestedRepairs(s: State, video: bool, n: int, now: int)
    requires Repairable(s)
    ensures Repairable(Requested(s, video, n, now))
  {
    hide AllDifferent, Queued, Fit, Caches, Retained;
    var s' := Requested(s, video, n, now);
    if s' != s {
      RequestedFit(s, video, n, now);
      var r := s'.repairs[|s.repairs|];
      QueuedPush(s.repairs, r);
      SameFits(s, s', s.repairs);
      SameFits(s, s', [r]);
      assert AllFit(s', s.repairs + [r]);
      SameCaches(s, s');
      if s.place.Holding? {
        SameFits(s, s', [s.place.repair]);
      }
    }
  }

  /** Fitness depends on the generation and on what it has sent. */
  lemma SameFits(s: State, s': State, repairs: seq<RepairPacket>)
    requires s'.generation == s.generation && FreshOf(s.log, s.generation) <= FreshOf(s'.log, s.generation)
    ensures forall r :: r in repairs && Fit(s, r) ==> Fit(s', r)
  {
    hide FreshOf;
    var rs, rs' := FreshOf(s.log, s.generation), FreshOf(s'.log, s.generation);
    forall r | r in repairs && Fit(s, r) && r.video
      ensures Vouched(rs', r)
    {
      var i :| 0 <= i < |rs| && rs[i].e.packet == r.packet && r.deadline <= rs[i].e.sentAt + MAX_SEND_AGE;
      assert rs'[i] == rs[i];
    }
  }

  lemma SameCaches(s: State, s': State)
    requires Caches(s) && s'.video == s.video && s'.audio == s.audio && s'.generation == s.generation
    requires FreshOf(s'.log, s.generation) == FreshOf(s.log, s.generation)
    ensures Caches(s')
  {
  }

  /** Steps that neither send nor record, and at most take the head of the repair queue in hand. */
  lemma SameRepairs(s: State, s': State)
    requires Repairable(s) && s'.generation == s.generation && s'.log == s.log
    requires s'.video == s.video && s'.audio == s.audio
    requires s'.repairs == s.repairs
             || (s.repairs != [] && s'.repairs == s.repairs[1..])
    requires s'.place.Holding? ==>
      (s.repairs != [] && s'.place.repair == s.repairs[0]) || (s.place.Holding? && s'.place.repair == s.place.repair)
    ensures Repairable(s')
  {
    hide After, FreshOf, AllAnswered, AllDifferent, Fit;
    var held := if s'.place.Holding? then [s'.place.repair] else [];
    SameFits(s, s', s.repairs + held);
    if s.repairs != [] {
      DifferentTail(s.repairs);
      assert s.repairs[0] in s.repairs;
      FitNow(s, s.repairs[0]);
    }
    forall r | r in s'.repairs ensures r in s.repairs + held { }
    SameCaches(s, s');
  }

  lemma FitNow(s: State, r: RepairPacket)
    requires Fit(s, r)
    ensures r.generation == s.generation
  {
  }

  lemma DifferentTail(repairs: seq<RepairPacket>)
    requires AllDifferent(repairs) && repairs != []
    ensures AllDifferent(repairs[1..])
  {
    forall i, j | 0 <= i < j < |repairs[1..]|
      ensures !Same(repairs[1..][i], repairs[1..][j])
    {
      assert !Same(repairs[i + 1], repairs[j + 1]);
    }
  }

  lemma AbandonedRepairs(s: State, s': State)
    requires Repairable(s) && Past(s) && s'.generation == s.generation + 1 && s'.repairs == [] && s'.log == s.log
    requires s'.video == EMPTY && (s'.audio == s.audio || s'.audio == EMPTY)
    requires s'.place.Holding? ==> s.place.Holding? && s'.place.repair == s.place.repair
    ensures Repairable(s')
  {
    hide AllAnswered, Fit;
    FreshOfNone(s.log, s'.generation);
  }

  lemma AnsweredSnoc(log: seq<Act>, a: Act)
    requires AllAnswered(log)
    requires a.Repair? && a.video && a.sent ==> exists j :: 0 <= j < |log| && Original(log[j], a)
    ensures AllAnswered(log + [a])
  {
    var log' := log + [a];
    forall k | 0 <= k < |log'|
      ensures Answered(log', k)
    {
      if log'[k].Repair? && log'[k].video && log'[k].sent {
        assert k < |log| ==> Answered(log, k) && log'[k] == log[k];
        var j :| 0 <= j < k && j < |log| && Original(log[j], log'[k]);
        assert log'[j] == log[j];
      }
    }
  }

  lemma FreshSentRepairs(s: State, f: InFlight, p: Packet, now: int, recordedAt: int)
    requires Repairable(s) && s.place == Repaired
    ensures Repairable(FreshSent(s, f, p, now, recordedAt))
  {
    hide AllDifferent, Fit, AllAnswered, Recorded;
    var s' := FreshSent(s, f, p, now, recordedAt);
    var a := Fresh(s.generation, f.next, p, now, f.frame.deadline, recordedAt);
    var rs := FreshOf(s.log, s.generation);
    FreshOfSnoc(s.log, a, s.generation);
    SameFits(s, s', s.repairs);
    AnsweredSnoc(s.log, a);
    var rs' := FreshOf(s'.log, s.generation);
    assert rs' == rs + [Record(NumberOf(p), Entry(p, recordedAt))] && rs'[..|rs|] == rs;
  }

  lemma RepairTriedRepairs(s: State, granted: bool, now: int, accepted: bool)
    requires Repairable(s) && s.place.Holding?
    ensures Repairable(RepairTried(s, s.place.tried, s.place.repair, granted, now, accepted))
  {
    hide AllDifferent, AllAnswered, FreshOf, After;
    var r := s.place.repair;
    var s' := RepairTried(s, s.place.tried, r, granted, now, accepted);
    var a := s'.log[|s.log|];
    if a.sent && a.video {
      var rs := FreshOf(s.log, s.generation);
      assert Vouched(rs, r);
      var i :| 0 <= i < |rs| && rs[i].e.packet == r.packet && r.deadline <= rs[i].e.sentAt + MAX_SEND_AGE;
      var j := FreshOfFrom(s.log, s.generation, i);
      assert Original(s.log[j], a);
    }
    AnsweredSnoc(s.log, a);
    FreshOfSnoc(s.log, a, s.generation);
    SameFits(s, s', s.repairs);
    SameCaches(s, s');
  }

  lemma FreshTriedRepairs(s: State, e: Event)
    requires Repairable(s) && Past(s) && e.TryFresh? && Enabled(s, e)
    ensures Repairable(FreshTried(s, s.inFlight.value, e.granted, e.now, e.accepted, e.recordedAt))
  {
    hide Repairable, Past, FreshSent, Recorded;
    var f := s.inFlight.value;
    if !s.streaming || f.frame.generation != s.generation {
      SameRepairs(s, FrameDropped(s));
    } else if e.granted && e.now < f.frame.deadline && e.accepted {
      FreshSentRepairs(s, f, f.frame.packets[f.next], e.now, e.recordedAt);
    } else {
      AbandonedRepairs(s, FrameDropped(Abandoned(s)));
    }
  }

  lemma EnqueuedRepairs(s: State, ps: seq<Packet>, deadline: int, key: bool, now: int)
    requires Repairable(s) && Past(s)
    ensures Repairable(Enqueued(s, ps, deadline, key, now))
  {
    hide Repairable, Past;
    if Overdue(s, |ps|, now) {
      AbandonedRepairs(s, Abandoned(s));
      SameRepairs(Abandoned(s), Enqueued(s, ps, deadline, key, now));
    } else {
      SameRepairs(s, Enqueued(s, ps, deadline, key, now));
    }
  }

  lemma OfferedRepairs(g: Config, s: State, e: Event)
    requires Repairable(s) && Past(s) && e.Offer?
    ensures Repairable(Offered(g, s, e.data, e.ptsUsec, e.keyframe, e.now))
  {
    hide Repairable, Enqueued, PacketsFor;
    var s0 := s.(capture := None);
    var ps := PacketsFor(g, s, e.data, e.ptsUsec);
    SameRepairs(s, s0);
    if s.capture.Some? {
      SameRepairs(s, s0.(seqNo := (s.seqNo + |ps|) % TWO16));
      EnqueuedRepairs(s0.(seqNo := (s.seqNo + |ps|) % TWO16), ps, s.capture.value, e.keyframe, e.now);
    }
  }

  lemma VoicedRepairs(s: State, p: Packet, accepted: bool, now: int)
    requires Repairable(s)
    ensures Repairable(Voiced(s, p, accepted, now))
  {
    hide AllDifferent, Fit, AllAnswered, Recorded, After, FreshOf, KeyedByNumber;
    RecordedKeyed(AUDIO_WINDOW, s.audio, p, now);
    SameFits(s, Voiced(s, p, accepted, now), s.repairs);
    if s.place.Holding? {
      SameFits(s, Voiced(s, p, accepted, now), [s.place.repair]);
    }
  }

  lemma RepairsKept(g: Config, s: State, e: Event)
    requires Repairable(s) && Past(s) && Enabled(s, e)
    ensures Repairable(Done(g, s, e))
  {
    hide Repairable, Past, Offered, FreshTried, RepairTried, Requested, Voiced;
    if e.Offer? {
      OfferedRepairs(g, s, e);
    } else if e.TryFresh? {
      FreshTriedRepairs(s, e);
    } else if e.TryRepair? {
      RepairTriedRepairs(s, e.granted, e.now, e.accepted);
    } else if e.Request? {
      RequestedRepairs(s, e.video, e.seqNo, e.now);
    } else if e.Voice? {
      VoicedRepairs(s, e.packet, e.accepted, e.now);
    } else if e.Reset? {
      AbandonedRepairs(s, QueueReset(s));
    } else if e.TakeRepair? {
      RepairTakenRepairs(s);
    } else if e.Wake? {
      WokenRepairs(s);
    } else if e.Advance? {
      AdvancedRepairs(s);
    } else if e.TakeFrame? {
      FrameTakenRepairs(s);
    } else {
      hide Woken, RepairTaken, Advanced, FrameTaken;
      SameRepairs(s, Done(g, s, e));
    }
  }

  lemma RepairTakenRepairs(s: State)
    requires Repairable(s) && Enabled(s, Event.TakeRepair)
    ensures Repairable(RepairTaken(s, s.place.tried))
  {
    hide Repairable;
    SameRepairs(s, RepairTaken(s, s.place.tried));
  }

  lemma WokenRepairs(s: State)
    requires Repairable(s) && Enabled(s, Event.Wake)
    ensures Repairable(Woken(s))
  {
    hide Repairable;
    SameRepairs(s, Woken(s));
  }

  lemma AdvancedRepairs(s: State)
    requires Repairable(s) && Enabled(s, Event.Advance)
    ensures Repairable(Advanced(s, s.inFlight.value))
  {
    hide Repairable;
    SameRepairs(s, Advanced(s, s.inFlight.value));
  }

  lemma FrameTakenRepairs(s: State)
    requires Repairable(s) && Enabled(s, Event.TakeFrame)
    ensures Repairable(FrameTaken(s))
  {
    hide Repairable;
    SameRepairs(s, FrameTaken(s));
  }

  // ------------------------------------------------------------------- tries between packets

  /** How many acts since the last packet of a frame was sent. */
  function Tries(log: seq<Act>): nat
    ensures Tries(log) <= |log|
  {
    if log == [] || log[|log| - 1].Fresh? then 0 else 1 + Tries(log[..|log| - 1])
  }

  function TriedBefore(place: Place): nat {
    match place
    case Repairing(n) => n
    case Holding(n, _) => if n > 0 then n - 1 else 0
    case Repaired => REPAIRS_AT_ONCE
    case _ => 0
  }

  /** The latest packet sent is packet i - 1 of the same frame, at most n tries ago. */
  ghost predicate Follows(log: seq<Act>, generation: nat, i: int, n: int) {
    && Tries(log) <= n && Tries(log) < |log|
    && var a := log[|log| - 1 - Tries(log)]; a.Fresh? && a.generation == generation && a.index + 1 == i
  }

  ghost predicate Paced(log: seq<Act>) {
    forall k :: 0 <= k < |log| && log[k].Fresh? && log[k].index > 0 ==>
      Follows(log[..k], log[k].generation, log[k].index, REPAIRS_AT_ONCE)
  }

  ghost predicate Turns(s: State) {
    && Paced(s.log)
    && (s.inFlight.Some? && s.inFlight.value.next > 0 && s.inFlight.value.frame.generation == s.generation ==>
      Follows(s.log, s.generation, s.inFlight.value.next, TriedBefore(s.place)))
  }

  lemma PacedSnoc(log: seq<Act>, a: Act)
    requires Paced(log)
    requires a.Fresh? && a.index > 0 ==> Follows(log, a.generation, a.index, REPAIRS_AT_ONCE)
    ensures Paced(log + [a])
  {
    hide Follows;
    var log' := log + [a];
    assert log'[..|log|] == log;
    forall k | 0 <= k < |log| ensures log'[..k] == log[..k] && log'[k] == log[k] { }
  }

  lemma FollowsSnoc(log: seq<Act>, a: Act, generation: nat, i: int, n: int)
    requires Follows(log, generation, i, n) && a.Repair?
    ensures Follows(log + [a], generation, i, n + 1)
  {
    assert (log + [a])[..|log|] == log;
  }

  lemma FreshTriedTurns(s: State, e: Event)
    requires Turns(s) && Placed(s.place, s.inFlight, s.generation) && e.TryFresh? && Enabled(s, e)
    ensures Turns(FreshTried(s, s.inFlight.value, e.granted, e.now, e.accepted, e.recordedAt))
  {
    hide Recorded, Paced;
    var f := s.inFlight.value;
    var a := Fresh(s.generation, f.next, f.frame.packets[f.next], e.now, f.frame.deadline, e.recordedAt);
    if s.streaming && f.frame.generation == s.generation {
      PacedSnoc(s.log, a);
    }
  }

  lemma RepairTriedTurns(s: State, e: Event)
    requires Turns(s) && Placed(s.place, s.inFlight, s.generation) && e.TryRepair? && Enabled(s, e)
    ensures Turns(RepairTried(s, s.place.tried, s.place.repair, e.granted, e.now, e.accepted))
  {
    hide Paced, Follows;
    var s' := RepairTried(s, s.place.tried, s.place.repair, e.granted, e.now, e.accepted);
    var a := s'.log[|s.log|];
    PacedSnoc(s.log, a);
    if s.inFlight.Some? && s.inFlight.value.next > 0 && s.inFlight.value.frame.generation == s.generation {
      FollowsSnoc(s.log, a, s.generation, s.inFlight.value.next, s.place.tried - 1);
    }
  }

  lemma SameTurns(s: State, s': State)
    requires Turns(s) && s'.log == s.log
    requires s'.inFlight == s.inFlight || s'.inFlight.None? || s'.inFlight.value.next == 0
    requires s'.generation != s.generation ==> s'.inFlight.Some? ==> s'.inFlight.value.frame.generation < s'.generation
    requires s'.inFlight.None? || s'.inFlight.value.next == 0 || TriedBefore(s.place) <= TriedBefore(s'.place)
    ensures Turns(s')
  {
    hide Paced;
  }

  lemma EnqueuedKeeps(s: State, ps: seq<Packet>, deadline: int, key: bool, now: int)
    ensures var s' := Enqueued(s, ps, deadline, key, now);
      s'.log == s.log && s'.inFlight == s.inFlight && s'.place == s.place && s'.generation >= s.generation
  {
    hide Overdue, Abandoned, Admitted;
    AbandonedKeeps(s);
    AdmittedKeeps(s, ps, deadline, key);
    AdmittedKeeps(Abandoned(s), ps, deadline, key);
  }

  lemma AbandonedKeeps(s: State)
    ensures var s' := Abandoned(s);
      s'.log == s.log && s'.inFlight == s.inFlight && s'.place == s.place && s'.generation >= s.generation
  {
  }

  lemma AdmittedKeeps(s: State, ps: seq<Packet>, deadline: int, key: bool)
    ensures var s' := Admitted(s, ps, deadline, key);
      s'.log == s.log && s'.inFlight == s.inFlight && s'.place == s.place && s'.generation == s.generation
  {
  }

  lemma OfferedTurns(g: Config, s: State, e: Event)
    requires Turns(s) && Placed(s.place, s.inFlight, s.generation) && e.Offer?
    ensures Turns(Offered(g, s, e.data, e.ptsUsec, e.keyframe, e.now))
  {
    hide Turns, Enqueued, PacketsFor, TriedBefore;
    var s' := Offered(g, s, e.data, e.ptsUsec, e.keyframe, e.now);
    var ps := PacketsFor(g, s, e.data, e.ptsUsec);
    if s.capture.Some? {
      EnqueuedKeeps(s.(capture := None, seqNo := (s.seqNo + |ps|) % TWO16), ps, s.capture.value, e.keyframe, e.now);
    }
    SameTurns(s, s');
  }

  lemma SenderTurns(g: Config, s: State, e: Event)
    requires Turns(s) && Placed(s.place, s.inFlight, s.generation) && Enabled(s, e)
    requires e.TakeFrame? || e.Advance? || e.Wake? || e.TakeRepair?
    ensures Turns(Done(g, s, e))
  {
    hide Turns, FreshTried, RepairTried, Offered, Requested, Voiced, Woken, RepairTaken, Advanced, FrameTaken, Placed;
    if e.TakeFrame? {
      FrameTakenTurns(s);
    } else if e.Advance? {
      AdvancedTurns(s);
    } else if e.Wake? {
      WokenTurns(s);
    } else {
      RepairTakenTurns(s);
    }
  }

  lemma FrameTakenTurns(s: State)
    requires Turns(s) && Enabled(s, Event.TakeFrame)
    ensures Turns(FrameTaken(s))
  {
    hide Turns;
    SameTurns(s, FrameTaken(s));
  }

  lemma AdvancedTurns(s: State)
    requires Turns(s) && Enabled(s, Event.Advance)
    ensures Turns(Advanced(s, s.inFlight.value))
  {
    hide Turns;
    SameTurns(s, Advanced(s, s.inFlight.value));
  }

  lemma WokenTurns(s: State)
    requires Turns(s) && Enabled(s, Event.Wake)
    ensures Turns(Woken(s))
  {
    hide Turns;
    SameTurns(s, Woken(s));
  }

  lemma RepairTakenTurns(s: State)
    requires Turns(s) && Placed(s.place, s.inFlight, s.generation) && Enabled(s, Event.TakeRepair)
    ensures Turns(RepairTaken(s, s.place.tried))
  {
    hide Turns;
    SameTurns(s, RepairTaken(s, s.place.tried));
  }

  lemma TurnsKept(g: Config, s: State, e: Event)
    requires Turns(s) && Placed(s.place, s.inFlight, s.generation) && Enabled(s, e)
    ensures Turns(Done(g, s, e))
  {
    hide Turns, FreshTried, RepairTried, Offered;
    if e.TryFresh? {
      FreshTriedTurns(s, e);
    } else if e.TryRepair? {
      RepairTriedTurns(s, e);
    } else if e.Offer? {
      OfferedTurns(g, s, e);
    } else if e.TakeFrame? || e.Advance? || e.Wake? || e.TakeRepair? {
      SenderTurns(g, s, e);
    } else {
      hide Recorded, Retained, Queued, TriedBefore;
      SameTurns(s, Done(g, s, e));
    }
  }
}
