/**
 What the gate in front of the decoder lets through. SubmissionsAreChained says what the decoder never
 gets; here is what it does get: while neither the codec nor the clock stands in the way, every frame
 from the first keyframe on, in order.
 */
module DecoderDelivery {
  import opened Bytes
  import opened DecoderGate

  /**
   Nothing stands in the way of this step: at most three frames of fewer than 4 MiB wait when one is
   fed, none waits for 40 ms, the codec takes what it is handed, and nothing fails.
   */
  ghost predicate Smooth(s: State, e: Event) {
    Enabled(s, e) &&
    match e
    case Call(_, _) => true
    case Enter(now, _) => |s.queue| <= 3 && s.bytes + s.entering.value.size <= 4 * 1024 * 1024 && Young(s.queue, now)
    case Drain(now, _) => Young(s.queue, now)
    case Hand(o) => o == Taken
    case _ => false
  }

  /** The oldest frame queued is less than 40 ms old. */
  predicate Young(queue: seq<Pending>, now: int) {
    queue != [] ==> now - queue[0].queuedAt < 40
  }

  ghost predicate AllSmooth(s: State, es: seq<Event>) {
    es == [] || (AllSmooth(s, es[..|es| - 1]) && Smooth(RunFrom(s, es[..|es| - 1]), es[|es| - 1]))
  }

  function Waiting(queue: seq<Pending>): seq<Frame> {
    if queue == [] then [] else [queue[0].frame] + Waiting(queue[1..])
  }

  function Submitted(log: seq<Act>): seq<Frame> {
    if log == [] then []
    else
      var a := log[|log| - 1];
      Submitted(log[..|log| - 1]) + if a.Submit? then [a.frame] else []
  }

  /** Everything let through: what the codec took, what is in hand, what is queued. */
  function LetThrough(s: State): seq<Frame> {
    Submitted(s.log) + ToSeq(s.inHand) + Waiting(s.queue)
  }

  /** The frames that these calls of feed bring, the first one being call number n. */
  function Brought(n: nat, es: seq<Event>): seq<Frame> {
    if es == [] then []
    else
      var before, e := Brought(n, es[..|es| - 1]), es[|es| - 1];
      before + if e.Call? then [Frame(n + |before|, e.size, e.key)] else []
  }

  function FromKeyframe(fs: seq<Frame>): seq<Frame> {
    if fs == [] then [] else if fs[0].key then fs else FromKeyframe(fs[1..])
  }

  /** All of them once the chain is open, and those from the first keyframe on before. */
  function Passing(ready: bool, fs: seq<Frame>): seq<Frame> {
    if ready then fs else FromKeyframe(fs)
  }

  // ------------------------------------------------------------------ one step at a time

  lemma {:induction false} WaitingSnoc(queue: seq<Pending>, p: Pending)
    ensures Waiting(queue + [p]) == Waiting(queue) + [p.frame]
  {
    if queue == [] {
      assert queue + [p] == [p];
    } else {
      assert (queue + [p])[1..] == queue[1..] + [p];
      WaitingSnoc(queue[1..], p);
    }
  }

  lemma SubmittedSnoc(log: seq<Act>, a: Act)
    ensures Submitted(log + [a]) == Submitted(log) + if a.Submit? then [a.frame] else []
  {
    assert (log + [a])[..|log|] == log;
  }

  /** The chain is open after these frames. */
  ghost predicate Opened(ready: bool, fs: seq<Frame>) {
    ready || exists f :: f in fs && f.key
  }

  lemma {:induction false} FromKeyframeSnoc(fs: seq<Frame>, f: Frame)
    ensures FromKeyframe(fs + [f]) == FromKeyframe(fs) + if f.key || (exists g :: g in fs && g.key) then [f] else []
  {
    if fs == [] {
      assert fs + [f] == [f];
    } else if !fs[0].key {
      assert (fs + [f])[1..] == fs[1..] + [f];
      FromKeyframeSnoc(fs[1..], f);
    }
  }

  function Gated(open: bool, f: Frame): seq<Frame> {
    if open || f.key then [f] else []
  }

  lemma PassingSnoc(ready: bool, fs: seq<Frame>, f: Frame)
    ensures Passing(ready, fs + [f]) == Passing(ready, fs) + Gated(Opened(ready, fs), f)
    ensures Opened(ready, fs + [f]) <==> Opened(ready, fs) || f.key
  {
    FromKeyframeSnoc(fs, f);
  }

  /** The frame past the first test joins the queue, or waits for a keyframe. */
  lemma EnterPasses(s: State, now: int, queuedAt: int)
    requires Smooth(s, Enter(now, queuedAt)) && Bounded(s)
    ensures var f := s.entering.value; var s' := Next(s, Enter(now, queuedAt));
      && LetThrough(s') == LetThrough(s) + Gated(s.ready, f)
      && s'.ready == (s.ready || f.key)
      && s'.entering == None && s'.recovering == s.recovering && s'.calls == s.calls
  {
    var f := s.entering.value;
    WaitingSnoc(s.queue, Pending(f, queuedAt));
    ConcatAssociates(Submitted(s.log) + ToSeq(s.inHand), Waiting(s.queue), [f]);
  }

  lemma DrainPasses(s: State, now: int, free: bool)
    requires Smooth(s, Drain(now, free))
    ensures var s' := Next(s, Drain(now, free));
      && LetThrough(s') == LetThrough(s)
      && s'.ready == s.ready && s'.entering == s.entering && s'.recovering == s.recovering && s'.calls == s.calls
  {
  }

  lemma HandPasses(s: State)
    requires Smooth(s, Hand(Taken))
    ensures var s' := Next(s, Hand(Taken));
      && LetThrough(s') == LetThrough(s)
      && s'.ready == s.ready && s'.entering == s.entering && s'.recovering == s.recovering && s'.calls == s.calls
  {
    SubmittedSnoc(s.log, Submit(s.inHand.value));
  }

  lemma CallPasses(s: State, size: nat, key: bool)
    requires Smooth(s, Call(size, key)) && !s.recovering
    ensures var s' := Next(s, Call(size, key));
      && LetThrough(s') == LetThrough(s)
      && s'.ready == s.ready && s'.recovering == s.recovering && s'.calls == s.calls + 1
      && s.entering == None && s'.entering == Some(Frame(s.calls, size, key))
  {
  }

  /** From s to s', with `brought` fed: all but the frame that has not reached the lock yet, `fed`, went through. */
  ghost predicate Accounted(s: State, s': State, brought: seq<Frame>, fed: seq<Frame>) {
    && ToSeq(s.entering) + brought == fed + ToSeq(s'.entering)
    && LetThrough(s') == LetThrough(s) + Passing(s.ready, fed)
    && (s'.ready <==> Opened(s.ready, fed)) && !s'.recovering && s'.calls == s.calls + |brought|
  }

  lemma CallAccounted(s: State, s1: State, brought: seq<Frame>, fed: seq<Frame>, size: nat, key: bool)
    requires Accounted(s, s1, brought, fed) && Smooth(s1, Call(size, key))
    ensures Accounted(s, Next(s1, Call(size, key)), brought + [Frame(s1.calls, size, key)], fed)
  {
    hide Smooth, Next, LetThrough, Passing, Opened;
    CallPasses(s1, size, key);
    var f := Frame(s1.calls, size, key);
    assert ToSeq(s.entering) + (brought + [f]) == ToSeq(s.entering) + brought + [f];
  }

  lemma EnterAccounted(s: State, s1: State, brought: seq<Frame>, fed: seq<Frame>, now: int, queuedAt: int)
    requires Accounted(s, s1, brought, fed) && Smooth(s1, Enter(now, queuedAt)) && Bounded(s1)
    ensures s1.entering.Some?
    ensures Accounted(s, Next(s1, Enter(now, queuedAt)), brought, fed + [s1.entering.value])
  {
    EnterSmooth(s1, now, queuedAt);
    hide Smooth, Next, LetThrough, Passing, Opened, Gated, Bounded;
    EnterPasses(s1, now, queuedAt);
    var f := s1.entering.value;
    PassingSnoc(s.ready, fed, f);
    ConcatAssociates(LetThrough(s), Passing(s.ready, fed), Gated(Opened(s.ready, fed), f));
    assert fed + [f] + [] == fed + [f];
  }

  lemma EnterSmooth(s: State, now: int, queuedAt: int)
    requires Smooth(s, Enter(now, queuedAt))
    ensures s.entering.Some?
  {
  }

  lemma OtherAccounted(s: State, s1: State, brought: seq<Frame>, fed: seq<Frame>, e: Event)
    requires Accounted(s, s1, brought, fed) && Smooth(s1, e) && !e.Call? && !e.Enter?
    ensures Accounted(s, Next(s1, e), brought, fed)
  {
    hide Next, LetThrough, Passing, Opened;
    match e
    case Drain(now, free) => DrainPasses(s1, now, free);
    case Hand(o) => HandPasses(s1);
    case _ =>
  }

  lemma {:induction false} FramesAccounted(s: State, es: seq<Event>) returns (fed: seq<Frame>)
    requires AllSmooth(s, es) && !s.recovering && Bounded(s)
    ensures Bounded(RunFrom(s, es))
    ensures Accounted(s, RunFrom(s, es), Brought(s.calls, es), fed)
  {
    hide Smooth, Accounted, Next, Bounded;
    if es == [] {
      fed := [];
      NothingAccounted(s);
    } else {
      var m := |es| - 1;
      var s1, e, brought := RunFrom(s, es[..m]), es[m], Brought(s.calls, es[..m]);
      fed := FramesAccounted(s, es[..m]);
      BoundedKept(s1, e);
      if e.Call? {
        CallsCounted(s, s1, brought, fed);
        CallAccounted(s, s1, brought, fed, e.size, e.key);
      } else if e.Enter? {
        assert brought + [] == brought;
        EnterAccounted(s, s1, brought, fed, e.now, e.queuedAt);
        fed := fed + [s1.entering.value];
      } else {
        assert brought + [] == brought;
        OtherAccounted(s, s1, brought, fed, e);
      }
    }
  }

  lemma CallsCounted(s: State, s1: State, brought: seq<Frame>, fed: seq<Frame>)
    requires Accounted(s, s1, brought, fed)
    ensures s1.calls == s.calls + |brought|
  {
  }

  lemma NothingAccounted(s: State)
    requires !s.recovering
    ensures Accounted(s, s, [], [])
  {
  }

  /**
   After any run, with no recovery pending, and then over any steps with nothing in the way: of the frames
   fed, all but the one that has not reached the lock yet, `fed`, go through, in order, none dropped, from
   the first keyframe on; all of them if the chain was open.
   */
  lemma EveryFrameGoesThrough(before: seq<Event>, es: seq<Event>) returns (fed: seq<Frame>)
    requires !Run(before).recovering && AllSmooth(Run(before), es)
    ensures var s, s' := Run(before), Run(before + es);
      && ToSeq(s.entering) + Brought(s.calls, es) == fed + ToSeq(s'.entering)
      && LetThrough(s') == LetThrough(s) + if s.ready then fed else FromKeyframe(fed)
  {
    hide RunFrom, AllSmooth, Brought, LetThrough, FromKeyframe, Bounded, Opened;
    AlwaysBounded(before);
    fed := FramesAccounted(Run(before), es);
    RunConcat(INITIAL, before, es);
  }

  // ------------------------------------------------------------------ what is dropped

  /** The oldest frame queued is no longer, and has not been taken in hand. */
  ghost predicate Drops(s: State, e: Event) {
    var s' := Next(s, e);
    s.queue != [] && s.queue[0].frame !in Waiting(s'.queue) && !(e.Drain? && s'.inHand.Some?)
  }

  /**
   A frame that reaches the lock joins those queued, or waits for a keyframe, if at most three frames and
   few enough bytes wait, none for 40 ms; otherwise they are all dropped, and it stays if it can begin anew.
   */
  lemma EnterDropsExactly(s: State, now: int, queuedAt: int)
    requires Bounded(s) && Enabled(s, Enter(now, queuedAt))
    ensures var f := s.entering.value; var s' := Next(s, Enter(now, queuedAt));
      Waiting(s'.queue) ==
        if |s.queue| <= 3 && s.bytes + f.size <= 4 * 1024 * 1024 && Young(s.queue, now)
        then Waiting(s.queue) + Gated(s.ready, f)
        else if f.key && f.size <= 4 * 1024 * 1024 then [f] else []
  {
    WaitingSnoc(s.queue, Pending(s.entering.value, queuedAt));
    assert Waiting([Pending(s.entering.value, queuedAt)][1..]) == [];
  }

  /** A frame is taken in hand exactly if the codec has a buffer and the frame has not waited for 40 ms. */
  lemma DrainTakesExactly(s: State, now: int, free: bool)
    requires Enabled(s, Drain(now, free))
    ensures var s' := Next(s, Drain(now, free));
      && (s'.inHand.Some? <==> s.queue != [] && free && Young(s.queue, now))
      && (s'.inHand.Some? ==> s'.inHand.value == s.queue[0].frame && s'.queue == s.queue[1..])
      && (s'.inHand.None? ==> s'.queue == if Young(s.queue, now) then s.queue else [])
  {
  }

  /** A step that drops queued frames, a keyframe among them. */
  ghost predicate LosesKeyframe(s: State, e: Event) {
    (e.Enter? || e.Drain? || e.Hand?) && Enabled(s, e) && Drops(s, e) && HasKey(s.queue)
  }

  lemma EnterKeeps(s: State, now: int, queuedAt: int)
    requires Enabled(s, Enter(now, queuedAt)) && !Full(s, s.entering.value.size, now)
    ensures !Drops(s, Enter(now, queuedAt))
  {
    WaitingSnoc(s.queue, Pending(s.entering.value, queuedAt));
  }

  lemma LossCounts(s: State, e: Event)
    requires LosesKeyframe(s, e)
    ensures var s' := Next(s, e);
      && s'.streak == s.streak + 1
      && s'.recovering == (s.recovering || s.streak >= 1)
  {
    hide HasKey;
    if e.Enter? && !Full(s, s.entering.value.size, e.now) {
      EnterKeeps(s, e.now, e.queuedAt);
    }
  }

  /** A frame is submitted, or the codec is rebuilt. */
  predicate Progress(e: Event) {
    e == Hand(Taken) || e.Rebuild?
  }

  /** The keyframes lost, one for each step that lost some, since anything was submitted or rebuilt. */
  ghost function Losses(es: seq<Event>): nat {
    if es == [] then 0
    else
      var before, e := es[..|es| - 1], es[|es| - 1];
      if Enabled(Run(before), e) && Progress(e) then 0
      else Losses(before) + if LosesKeyframe(Run(before), e) then 1 else 0
  }

  /** What is queued was fed before the frame that is to reach the lock next. */
  ghost predicate InTurn(s: State) {
    && (forall p :: p in s.queue ==> p.frame.index < Upcoming(s)) && Upcoming(s) <= s.calls
    && (s.entering.Some? ==> Upcoming(s) < s.calls)
  }

  lemma InTurnKept(s: State, e: Event)
    requires InTurn(s)
    ensures InTurn(Next(s, e))
  {
    hide HasKey, Expired, Full;
  }

  lemma {:induction false} AlwaysInTurn(es: seq<Event>)
    ensures InTurn(Run(es))
  {
    hide Next;
    if es != [] {
      hide InTurn;
      AlwaysInTurn(es[..|es| - 1]);
      InTurnKept(Run(es[..|es| - 1]), es[|es| - 1]);
    }
  }

  lemma EnterNoLoss(s: State, now: int, queuedAt: int)
    requires Enabled(s, Enter(now, queuedAt)) && InTurn(s) && !LosesKeyframe(s, Enter(now, queuedAt))
    ensures var s' := Next(s, Enter(now, queuedAt)); s'.streak == s.streak && s'.recovering == s.recovering
  {
    var e := Enter(now, queuedAt);
    if HasKey(s.queue) && Full(s, s.entering.value.size, now) {
      assert s.queue[0] in s.queue;
      var s' := Next(s, e);
      assert s'.queue == [] || s'.queue == [] + [Pending(s.entering.value, queuedAt)];
      WaitingSnoc([], Pending(s.entering.value, queuedAt));
      assert false;
    }
  }

  lemma OtherNoLoss(s: State, e: Event)
    requires Enabled(s, e) && (e.Drain? || e.Hand?) && !LosesKeyframe(s, e) && !Progress(e)
    ensures var s' := Next(s, e); s'.streak == s.streak && s'.recovering == s.recovering
  {
  }

  /** A step that loses no keyframe leaves the count alone, and asks for no recovery unless that is its purpose. */
  lemma NoLossNoCount(s: State, e: Event)
    requires Enabled(s, e) && InTurn(s) && !LosesKeyframe(s, e) && !Progress(e)
    ensures var s' := Next(s, e);
      && s'.streak == s.streak
      && (s'.recovering ==> s.recovering || e.Arm? || e.Swap?)
  {
    hide InTurn, LosesKeyframe, Entered, Drained, Handed, HasKey;
    if e.Enter? {
      EnterNoLoss(s, e.now, e.queuedAt);
    } else if e.Drain? || e.Hand? {
      OtherNoLoss(s, e);
    }
  }

  lemma ProgressForgives(s: State, e: Event)
    requires Enabled(s, e) && Progress(e)
    ensures var s' := Next(s, e); s'.streak == 0 && s'.recovering == s.recovering && !LosesKeyframe(s, e)
  {
    hide HasKey;
    if e.Hand? && s.queue != [] {
      assert Waiting(s.queue)[0] == s.queue[0].frame;
    }
  }

  lemma {:induction false} StreakIsLosses(es: seq<Event>)
    ensures Run(es).streak == Losses(es)
  {
    hide Next, Enabled, LosesKeyframe, Progress;
    if es != [] {
      var before, e := es[..|es| - 1], es[|es| - 1];
      StreakIsLosses(before);
      if !Enabled(Run(before), e) {
        NothingDone(Run(before), e);
      } else if Progress(e) {
        ProgressForgives(Run(before), e);
      } else if LosesKeyframe(Run(before), e) {
        LossCounts(Run(before), e);
      } else {
        AlwaysInTurn(before);
        NoLossNoCount(Run(before), e);
      }
    }
  }

  lemma NothingDone(s: State, e: Event)
    requires !Enabled(s, e)
    ensures Next(s, e) == s && !LosesKeyframe(s, e)
  {
  }

  /**
   On every run, a step asks for a recovery if and only if it reports an error or a new surface, or it
   loses a keyframe and another has been lost since anything was submitted or the codec rebuilt.
   */
  lemma RecoveryIsAskedForExactly(es: seq<Event>, e: Event)
    requires Enabled(Run(es), e) && !Run(es).recovering
    ensures Next(Run(es), e).recovering <==> e.Arm? || e.Swap? || (LosesKeyframe(Run(es), e) && Losses(es) >= 1)
  {
    hide Run, LosesKeyframe, InTurn, Losses;
    var s := Run(es);
    StreakIsLosses(es);
    if LosesKeyframe(s, e) {
      LossCounts(s, e);
    } else if Progress(e) {
      ProgressForgives(s, e);
    } else {
      AlwaysInTurn(es);
      NoLossNoCount(s, e);
    }
  }
}
