/**
 The decoder's input gate (client/quest/app/src/main/java/com/metashare/client/VideoDecoder.java): a
 bounded queue between the receive thread, which feeds access units, and the codec's callback thread,
 which submits them. Each synchronized region is one step. Times are in milliseconds.
 */
module DecoderGate {
  import opened Bytes

  const INPUT_BUDGET: int := 40
  const MAX_PENDING_FRAMES: nat := 4
  const MAX_PENDING_BYTES: nat := 4 * 1024 * 1024
  const WEDGE_DROPS: nat := 2

  /** The index counts calls of feed. */
  datatype Frame = Frame(index: nat, size: nat, key: bool)

  datatype Pending = Pending(frame: Frame, queuedAt: int)

  /** What the codec has seen: a frame with its data, an input buffer returned empty, or a reset. */
  datatype Act = Submit(frame: Frame) | Empty | Reset

  /**
   Where the callback thread stands between its regions: nowhere in particular, past the clearing in
   onError, past the clearing in recover, or past the codec's reset there.
   */
  datatype Stage = Free | Failed | Wiped | Rebuilt

  /**
   `entering` has passed feed's first test; `inHand` has left the queue, but is not submitted yet;
   `clock` is the latest reading.
   */
  datatype State = State(queue: seq<Pending>, bytes: int, ready: bool, streak: nat, recovering: bool,
                         calls: nat, entering: Option<Frame>, inHand: Option<Frame>, stage: Stage,
                         clock: int, log: seq<Act>)

  const INITIAL := State([], 0, false, 0, false, 0, None, None, Free, 0, [])

  predicate HasKey(queue: seq<Pending>) {
    exists p :: p in queue && p.frame.key
  }

  function Cleared(s: State): State {
    s.(queue := [], bytes := 0, ready := false)
  }

  /** A second keyframe lost with nothing submitted in between asks for a recovery. */
  function Dropped(s: State): State {
    if HasKey(s.queue) then
      Cleared(s).(streak := s.streak + 1, recovering := s.recovering || s.streak + 1 >= WEDGE_DROPS)
    else Cleared(s)
  }

  /** The oldest frame queued has outlived its budget. */
  predicate Expired(queue: seq<Pending>, now: int) {
    queue != [] && now - queue[0].queuedAt >= INPUT_BUDGET
  }

  predicate Full(s: State, size: nat, now: int) {
    |s.queue| >= MAX_PENDING_FRAMES || s.bytes + size > MAX_PENDING_BYTES || Expired(s.queue, now)
  }

  function Called(s: State, size: nat, key: bool): State {
    var s' := s.(calls := s.calls + 1);
    if s.recovering then s' else s'.(entering := Some(Frame(s.calls, size, key)))
  }

  function Accepted(s: State, f: Frame, queuedAt: int): State {
    if f.size > MAX_PENDING_BYTES || (!s.ready && !f.key) then s
    else s.(ready := true, queue := s.queue + [Pending(f, queuedAt)], bytes := s.bytes + f.size)
  }

  /** The frame's own clock reading comes after the one that judges the queue. */
  function Entered(s: State, f: Frame, now: int, queuedAt: int): State {
    Accepted((if Full(s, f.size, now) then Dropped(s) else s).(entering := None, clock := queuedAt), f, queuedAt)
  }

  function Drained(s: State, now: int, free: bool): State {
    var s' := s.(clock := now);
    if s.queue == [] then s'
    else if INPUT_BUDGET - (now - s.queue[0].queuedAt) <= 0 then Dropped(s')
    else if !free then s'
    else s'.(inHand := Some(s.queue[0].frame), queue := s.queue[1..], bytes := s.bytes - s.queue[0].frame.size)
  }

  /** The codec takes the frame, has no buffer large enough and gets it back empty, or throws. */
  datatype Outcome = Taken | TooLarge | Thrown

  function Handed(s: State, f: Frame, o: Outcome): State {
    match o
    case Taken => s.(inHand := None, log := s.log + [Submit(f)], streak := 0)
    case TooLarge => Dropped(s.(inHand := None, log := s.log + [Empty]))
    case Thrown => Dropped(s.(inHand := None))
  }

  /** onError clears under the lock; that a recovery is pending is noted later. */
  function ErrorCleared(s: State): State {
    Cleared(s).(stage := Failed)
  }

  /** onError, or a new surface that the codec will not take. */
  function Armed(s: State): State {
    s.(recovering := true, stage := Free)
  }

  function RecoverCleared(s: State): State {
    Cleared(s).(stage := Wiped)
  }

  /** The codec is reset, unless that throws. */
  function CodecRebuilt(s: State, reset: bool): State {
    s.(streak := 0, stage := Rebuilt, log := if reset then s.log + [Reset] else s.log)
  }

  /** The recovery is over, or has been called off with nothing cleared. */
  function Ended(s: State): State {
    s.(recovering := false, stage := Free)
  }

  datatype Event =
    | Call(size: nat, key: bool)
    | Enter(now: int, queuedAt: int)
    | Drain(now: int, free: bool)
    | Hand(outcome: Outcome)
    | Fail
    | Arm
    | Swap
    | Wipe
    | Rebuild(reset: bool)
    | Resume
    | CallOff

  /** The thread that would take this step stands before it, and clock readings never go back. */
  predicate Enabled(s: State, e: Event) {
    match e
    case Call(_, _) => s.entering.None?
    case Enter(now, queuedAt) => s.entering.Some? && s.clock <= now <= queuedAt
    case Drain(now, _) => s.inHand.None? && s.stage == Free && s.clock <= now
    case Hand(_) => s.inHand.Some?
    case Arm => s.stage == Failed
    case Rebuild(_) => s.stage == Wiped
    case Resume => s.stage == Rebuilt
    case _ => s.inHand.None? && s.stage == Free
  }

  function Done(s: State, e: Event): State
    requires Enabled(s, e)
  {
    match e
    case Call(size, key) => Called(s, size, key)
    case Enter(now, queuedAt) => Entered(s, s.entering.value, now, queuedAt)
    case Drain(now, free) => Drained(s, now, free)
    case Hand(o) => Handed(s, s.inHand.value, o)
    case Fail => ErrorCleared(s)
    case Arm => Armed(s)
    case Swap => Armed(s)
    case Wipe => RecoverCleared(s)
    case Rebuild(reset) => CodecRebuilt(s, reset)
    case Resume => Ended(s)
    case CallOff => Ended(s)
  }

  function Next(s: State, e: Event): State {
    if Enabled(s, e) then Done(s, e) else s
  }

  function RunFrom(s: State, es: seq<Event>): State {
    if es == [] then s else Next(RunFrom(s, es[..|es| - 1]), es[|es| - 1])
  }

  function Run(es: seq<Event>): State {
    RunFrom(INITIAL, es)
  }

  class VideoDecoder {
    var pendingInputs: seq<Pending>
    var pendingBytes: int
    var inputChainReady: bool
    var keyframeDropStreak: nat
    var recovering: bool
    var calls: nat
    var entering: Option<Frame>
    var inHand: Option<Frame>
    var stage: Stage
    ghost var clock: int
    ghost var log: seq<Act>

    ghost function Current(): State
      reads this
    {
      State(pendingInputs, pendingBytes, inputChainReady, keyframeDropStreak, recovering, calls, entering, inHand,
            stage, clock, log)
    }

    constructor ()
      ensures Current() == INITIAL
    {
      pendingInputs, pendingBytes, inputChainReady := [], 0, false;
      keyframeDropStreak, recovering := 0, false;
      calls, entering, inHand, stage, clock, log := 0, None, None, Free, 0, [];
    }

    method ClearPendingInputs()
      modifies this
      ensures Current() == Cleared(old(Current()))
    {
      pendingInputs, pendingBytes, inputChainReady := [], 0, false;
    }

    method DropPendingInputs()
      modifies this
      ensures Current() == Dropped(old(Current()))
    {
      var lostKeyframe := false;
      for i := 0 to |pendingInputs|
        invariant lostKeyframe <==> exists j :: 0 <= j < i && pendingInputs[j].frame.key
        invariant Current() == old(Current())
        modifies {}
      {
        if pendingInputs[i].frame.key {
          lostKeyframe := true;
        }
      }
      ClearPendingInputs();
      if lostKeyframe {
        keyframeDropStreak := keyframeDropStreak + 1;
        if keyframeDropStreak >= WEDGE_DROPS && !recovering {
          recovering := true;
        }
      }
    }

    /** The test that feed makes before it takes the lock. */
    method BeginFeed(size: nat, keyframe: bool)
      requires entering.None?
      modifies this
      ensures Current() == Called(old(Current()), size, keyframe)
    {
      var index := calls;
      calls := calls + 1;
      if recovering { return; }
      entering := Some(Frame(index, size, keyframe));
    }

    /** The synchronized region of feed. */
    method Feed(now: int, queuedAt: int)
      requires Enabled(Current(), Enter(now, queuedAt))
      modifies this
      ensures Current() == Entered(old(Current()), old(entering.value), now, queuedAt)
    {
      hide HasKey;
      var f := entering.value;
      if |pendingInputs| >= MAX_PENDING_FRAMES || pendingBytes + f.size > MAX_PENDING_BYTES
         || (|pendingInputs| > 0 && now - pendingInputs[0].queuedAt >= INPUT_BUDGET) {
        DropPendingInputs();
      }
      entering, clock := None, queuedAt;
      if f.size > MAX_PENDING_BYTES { return; }
      if !inputChainReady && !f.key { return; }
      inputChainReady := true;
      pendingInputs := pendingInputs + [Pending(f, queuedAt)];
      pendingBytes := pendingBytes + f.size;
    }

    /** The synchronized region of drainPendingInputs; `free` tells whether the codec has a free buffer. */
    method Drain(now: int, free: bool)
      requires Enabled(Current(), Event.Drain(now, free))
      modifies this
      ensures Current() == Drained(old(Current()), now, free)
    {
      clock := now;
      if |pendingInputs| == 0 { return; }
      var pending := pendingInputs[0];
      var remaining := INPUT_BUDGET - (now - pending.queuedAt);
      if remaining <= 0 {
        DropPendingInputs();
        return;
      }
      if !free { return; }
      pendingInputs := pendingInputs[1..];
      pendingBytes := pendingBytes - pending.frame.size;
      inHand := Some(pending.frame);
    }

    /** The rest of the drain loop's turn. */
    method Hand(o: Outcome)
      requires inHand.Some?
      modifies this
      ensures Current() == Handed(old(Current()), old(inHand.value), o)
    {
      var pending := inHand.value;
      inHand := None;
      match o
      case Taken =>
        log := log + [Submit(pending)];
        keyframeDropStreak := 0;
      case TooLarge =>
        log := log + [Empty];
        DropPendingInputs();
      case Thrown =>
        DropPendingInputs();
    }

    /** onError, its two halves. */
    method OnError()
      requires Enabled(Current(), Fail)
      modifies this
      ensures Current() == ErrorCleared(old(Current()))
    {
      ClearPendingInputs();
      stage := Failed;
    }

    method Arm()
      modifies this
      ensures Current() == Armed(old(Current()))
    {
      stage := Free;
      if recovering { return; }
      recovering := true;
    }

    /** recover on a valid surface: the clearing, the codec, the end. */
    method BeginRecover()
      requires Enabled(Current(), Wipe)
      modifies this
      ensures Current() == RecoverCleared(old(Current()))
    {
      ClearPendingInputs();
      stage := Wiped;
    }

    method RebuildCodec(reset: bool)
      requires Enabled(Current(), Rebuild(reset))
      modifies this
      ensures Current() == CodecRebuilt(old(Current()), reset)
    {
      keyframeDropStreak := 0;
      if reset {
        log := log + [Reset];
      }
      stage := Rebuilt;
    }

    /** The end of recover, reached with the codec rebuilt or by giving up on the surface. */
    method EndRecover()
      requires Enabled(Current(), Resume) || Enabled(Current(), CallOff)
      modifies this
      ensures Current() == Ended(old(Current()))
    {
      recovering := false;
      stage := Free;
    }
  }

  // -------------------------------------------------------------------------- bounds

  function Load(queue: seq<Pending>): nat {
    if queue == [] then 0 else queue[0].frame.size + Load(queue[1..])
  }

  lemma {:induction false} LoadSnoc(queue: seq<Pending>, p: Pending)
    ensures Load(queue + [p]) == Load(queue) + p.frame.size
  {
    if queue == [] {
      assert queue + [p] == [p];
    } else {
      assert (queue + [p])[1..] == queue[1..] + [p];
      LoadSnoc(queue[1..], p);
    }
  }

  /** Queued in the order of their clock readings, none of them still to come. */
  ghost predicate InOrder(queue: seq<Pending>, clock: int) {
    && (forall i, j :: 0 <= i < j < |queue| ==> queue[i].queuedAt <= queue[j].queuedAt)
    && (forall i :: 0 <= i < |queue| ==> queue[i].queuedAt <= clock)
  }

  ghost predicate Bounded(s: State) {
    s.bytes == Load(s.queue) <= MAX_PENDING_BYTES && |s.queue| <= MAX_PENDING_FRAMES && InOrder(s.queue, s.clock)
  }

  lemma AcceptedBounded(s: State, f: Frame)
    requires Bounded(s) && |s.queue| < MAX_PENDING_FRAMES
    requires s.bytes + f.size <= MAX_PENDING_BYTES || f.size > MAX_PENDING_BYTES
    ensures Bounded(Accepted(s, f, s.clock))
  {
    LoadSnoc(s.queue, Pending(f, s.clock));
  }

  lemma EnteredBounded(s: State, f: Frame, now: int, queuedAt: int)
    requires Bounded(s) && s.clock <= now <= queuedAt
    ensures Bounded(Entered(s, f, now, queuedAt))
  {
    hide HasKey, Accepted;
    if Full(s, f.size, now) {
      AcceptedBounded(Dropped(s).(entering := None, clock := queuedAt), f);
    } else {
      AcceptedBounded(s.(entering := None, clock := queuedAt), f);
    }
  }

  lemma DrainedBounded(s: State, now: int, free: bool)
    requires Bounded(s) && s.clock <= now
    ensures Bounded(Drained(s, now, free))
  {
    hide HasKey;
  }

  lemma BoundedKept(s: State, e: Event)
    requires Bounded(s)
    ensures Bounded(Next(s, e))
  {
    hide HasKey, Entered, Drained, InOrder, Load;
    if Enabled(s, e) {
      EmptyBounded(s.clock);
      if e.Enter? {
        EnteredBounded(s, s.entering.value, e.now, e.queuedAt);
      } else if e.Drain? {
        DrainedBounded(s, e.now, e.free);
      }
    }
  }

  lemma EmptyBounded(clock: int)
    ensures Load([]) == 0 && InOrder([], clock)
  {
  }

  lemma {:induction false} AlwaysBounded(es: seq<Event>)
    ensures Bounded(Run(es))
  {
    hide Bounded, Next;
    if es == [] {
      assert Bounded(INITIAL) by { InitialBounded(); }
    } else {
      AlwaysBounded(es[..|es| - 1]);
      BoundedKept(Run(es[..|es| - 1]), es[|es| - 1]);
    }
  }

  lemma InitialBounded()
    ensures Bounded(INITIAL)
  {
  }

  /** The byte count is that of the queue, and the queue keeps its limits. */
  lemma QueueStaysBounded(es: seq<Event>)
    ensures var s := Run(es);
      s.bytes == Load(s.queue) <= 4 * 1024 * 1024 && |s.queue| <= 4
  {
    hide Run, Load;
    AlwaysBounded(es);
  }

  // ------------------------------------------------------------------- the dependency chain

  /** The frame needs nothing, or its immediate predecessor is the one before. */
  predicate Follows(before: int, f: Frame) {
    f.key || f.index == before + 1
  }

  /** The index of the frame the codec was given last, or -2 if that was nothing, no data or a reset. */
  function LastSubmitted(log: seq<Act>): int {
    if log != [] && log[|log| - 1].Submit? then log[|log| - 1].frame.index else -2
  }

  /** Every frame submitted that is no keyframe comes right after its predecessor in feed order. */
  ghost predicate Chained(log: seq<Act>) {
    forall k :: 0 <= k < |log| && log[k].Submit? ==> Follows(LastSubmitted(log[..k]), log[k].frame)
  }

  /** The queue continues from index `before`. */
  predicate Continues(before: int, queue: seq<Pending>)
    decreases |queue|
  {
    queue == [] || (Follows(before, queue[0].frame) && Continues(queue[0].frame.index, queue[1..]))
  }

  function Front(s: State): int {
    if s.inHand.Some? then s.inHand.value.index else LastSubmitted(s.log)
  }

  function Back(before: int, queue: seq<Pending>): int
    decreases |queue|
  {
    if queue == [] then before else Back(queue[0].frame.index, queue[1..])
  }

  /** The index that the next frame to reach the lock will have. */
  function Upcoming(s: State): int {
    if s.entering.Some? then s.entering.value.index else s.calls
  }

  /** The chain is open, but a frame has been turned away since it was opened. */
  predicate Gap(s: State) {
    s.ready && Back(Front(s), s.queue) != Upcoming(s) - 1
  }

  /** A gap that nothing will close: what is queued has not expired. */
  predicate Exposed(s: State) {
    Gap(s) && !Expired(s.queue, s.clock)
  }

  ghost predicate Linked(s: State) {
    && Chained(s.log)
    && (s.inHand.Some? ==> Follows(LastSubmitted(s.log), s.inHand.value) && s.stage == Free)
    && Continues(Front(s), s.queue)
    && (s.queue != [] ==> s.ready)
    && (s.stage == Wiped ==> Restarted(s))
    && (s.entering.Some? ==> s.entering.value.index == s.calls - 1)
    && (!s.recovering || s.entering.Some? ==> !Exposed(s))
  }

  /** Since the clearing in recover, the chain has not been opened or a keyframe has opened it. */
  predicate Restarted(s: State) {
    (s.ready ==> s.queue != []) && (s.queue != [] ==> s.queue[0].frame.key)
  }

  lemma {:induction false} ContinuesSnoc(before: int, queue: seq<Pending>, p: Pending)
    requires Continues(before, queue) && Follows(Back(before, queue), p.frame)
    ensures Continues(before, queue + [p]) && Back(before, queue + [p]) == p.frame.index
    decreases |queue|
  {
    if queue == [] {
      assert queue + [p] == [p];
    } else {
      assert (queue + [p])[1..] == queue[1..] + [p];
      ContinuesSnoc(queue[0].frame.index, queue[1..], p);
    }
  }

  lemma ChainedSnoc(log: seq<Act>, a: Act)
    requires Chained(log) && (a.Submit? ==> Follows(LastSubmitted(log), a.frame))
    ensures Chained(log + [a])
  {
    hide LastSubmitted, Follows;
    var log' := log + [a];
    forall k | 0 <= k < |log'| && log'[k].Submit?
      ensures Follows(LastSubmitted(log'[..k]), log'[k].frame)
    {
      assert log'[..k] == if k < |log| then log[..k] else log;
    }
  }

  lemma ClearedLinked(s: State)
    requires Linked(s)
    ensures Linked(Cleared(s)) && Linked(Dropped(s))
  {
    hide Chained, HasKey;
  }

  lemma AcceptedLinked(s: State, f: Frame)
    requires Linked(s) && !Gap(s) && s.entering == Some(f) && (s.ready ==> f.size <= MAX_PENDING_BYTES)
    ensures Linked(Accepted(s, f, s.clock).(entering := None))
  {
    hide Chained;
    if s.ready || f.key {
      ContinuesSnoc(Front(s), s.queue, Pending(f, s.clock));
    }
  }

  lemma LaterLinked(s: State, clock: int)
    requires Linked(s) && s.clock <= clock
    ensures Linked(s.(clock := clock))
  {
    hide Chained, Continues, Back;
  }

  lemma EnteredLinked(s: State, now: int, queuedAt: int)
    requires Linked(s) && Bounded(s) && Enabled(s, Enter(now, queuedAt))
    ensures Linked(Entered(s, s.entering.value, now, queuedAt))
  {
    hide Linked, Accepted, HasKey, Continues, Back;
    var f := s.entering.value;
    var s1 := if Full(s, f.size, now) then Dropped(s) else s;
    if Full(s, f.size, now) {
      ClearedLinked(s);
    } else {
      EnteringOverNoGap(s, now);
      RoomForFrame(s, f.size, now);
    }
    LaterLinked(s1, queuedAt);
    var s2 := s1.(clock := queuedAt);
    AcceptedLinked(s2, f);
    EnteringIsApart(s2, f);
  }

  /** A frame that finds room finds no gap. */
  lemma EnteringOverNoGap(s: State, now: int)
    requires Linked(s) && s.entering.Some? && s.clock <= now && !Expired(s.queue, now)
    ensures !Gap(s)
  {
    hide Chained, Continues;
  }

  lemma RoomForFrame(s: State, size: nat, now: int)
    requires Bounded(s) && !Full(s, size, now)
    ensures size <= MAX_PENDING_BYTES
  {
  }

  lemma EnteringIsApart(s: State, f: Frame)
    ensures Accepted(s.(entering := None), f, s.clock) == Accepted(s, f, s.clock).(entering := None)
  {
  }

  lemma DrainedLinked(s: State, now: int, free: bool)
    requires Linked(s) && Enabled(s, Drain(now, free))
    ensures Linked(Drained(s, now, free))
  {
    hide Chained, HasKey;
    LaterLinked(s, now);
    ClearedLinked(s.(clock := now));
  }

  lemma HandedLinked(s: State, f: Frame, o: Outcome)
    requires Linked(s) && s.inHand == Some(f)
    ensures Linked(Handed(s, f, o))
  {
    hide Chained, HasKey;
    ChainedSnoc(s.log, Submit(f));
    ChainedSnoc(s.log, Empty);
  }

  lemma RebuiltLinked(s: State, reset: bool)
    requires Linked(s) && s.stage == Wiped
    ensures Linked(CodecRebuilt(s, reset))
  {
    hide Chained;
    ChainedSnoc(s.log, Reset);
  }

  lemma CalledLinked(s: State, size: nat, key: bool)
    requires Linked(s) && s.entering.None?
    ensures Linked(Called(s, size, key))
  {
    hide Chained, Continues, Back;
  }

  predicate Ends(e: Event) { e.Resume? || e.CallOff? }

  /** Whether the step, taken in this state, would end a recovery over a gap. */
  predicate EndsExposed(s: State, e: Event) {
    Ends(e) && Enabled(s, e) && Exposed(s)
  }

  lemma StagedLinked(s: State, e: Event)
    requires Linked(s) && Enabled(s, e) && !EndsExposed(s, e)
    requires e.Fail? || e.Arm? || e.Swap? || e.Wipe? || Ends(e)
    ensures Linked(Done(s, e))
  {
    hide Chained, Entered, Drained, Handed, CodecRebuilt, Called;
  }

  lemma LinkedKept(s: State, e: Event)
    requires Linked(s) && Bounded(s) && !EndsExposed(s, e)
    ensures Linked(Next(s, e))
  {
    hide Linked, Bounded, EndsExposed, Entered, Drained, Handed, CodecRebuilt, Called, Exposed;
    if Enabled(s, e) {
      match e
      case Call(size, key) => CalledLinked(s, size, key);
      case Enter(now, queuedAt) => EnteredLinked(s, now, queuedAt);
      case Drain(now, free) => DrainedLinked(s, now, free);
      case Hand(o) => HandedLinked(s, s.inHand.value, o);
      case Rebuild(reset) => RebuiltLinked(s, reset);
      case _ => StagedLinked(s, e);
    }
  }

  /** No recovery ends over a gap, by succeeding or by being called off. */
  predicate NeverEndsExposed(es: seq<Event>) {
    es == [] || (NeverEndsExposed(es[..|es| - 1]) && !EndsExposed(Run(es[..|es| - 1]), es[|es| - 1]))
  }

  lemma {:induction false} AlwaysLinked(es: seq<Event>)
    requires NeverEndsExposed(es)
    ensures Linked(Run(es))
  {
    hide Linked, Next, EndsExposed;
    if es == [] {
      assert Linked(INITIAL) by { InitialLinked(); }
    } else {
      AlwaysLinked(es[..|es| - 1]);
      AlwaysBounded(es[..|es| - 1]);
      LinkedKept(Run(es[..|es| - 1]), es[|es| - 1]);
    }
  }

  lemma InitialLinked()
    ensures Linked(INITIAL)
  {
  }

  /**
   Whatever the interleaving of feed, drain, failures and recoveries: each frame the codec is given is
   a keyframe, or was preceded immediately by its predecessor in feed order; provided that no recovery
   ends over a gap.
   */
  lemma SubmissionsAreChained(es: seq<Event>)
    requires NeverEndsExposed(es)
    ensures Chained(Run(es).log)
  {
    hide Run, NeverEndsExposed, Chained;
    AlwaysLinked(es);
  }

  // ------------------------------------------------- what ending a recovery over a gap comes to

  lemma {:induction false} RunConcat(s: State, es: seq<Event>, fs: seq<Event>)
    ensures RunFrom(s, es + fs) == RunFrom(RunFrom(s, es), fs)
  {
    hide Next;
    if fs == [] {
      assert es + fs == es;
    } else {
      var m := |fs| - 1;
      assert (es + fs)[..|es + fs| - 1] == es + fs[..m];
      RunConcat(s, es, fs[..m]);
    }
  }

  lemma RunOne(s: State, e: Event)
    ensures RunFrom(s, [e]) == Next(s, e)
  {
    hide Next;
    assert [e][..0] == [];
  }

  lemma RunTwo(s: State, e: Event, f: Event)
    ensures RunFrom(s, [e, f]) == Next(Next(s, e), f)
  {
    hide Next, RunFrom;
    assert [e] + [f] == [e, f];
    RunConcat(s, [e], [f]);
    RunOne(s, e);
    RunOne(Next(s, e), f);
  }

  predicate EndsNothing(es: seq<Event>) {
    forall e :: e in es ==> !Ends(e)
  }

  /** Indices are handed out by the counter. */
  predicate Known(s: State) {
    && LastSubmitted(s.log) < s.calls
    && (s.inHand.Some? ==> s.inHand.value.index < s.calls)
    && (s.entering.Some? ==> s.entering.value.index < s.calls)
    && (forall p :: p in s.queue ==> p.frame.index < s.calls)
  }

  lemma EnteredKnown(s: State, f: Frame, now: int, queuedAt: int)
    requires Known(s) && s.entering == Some(f)
    ensures Known(Entered(s, f, now, queuedAt))
  {
    hide HasKey, Full;
  }

  lemma DrainedKnown(s: State, now: int, free: bool)
    requires Known(s) && s.inHand.None?
    ensures Known(Drained(s, now, free))
  {
    hide HasKey, LastSubmitted;
    if s.queue != [] {
      assert s.queue[0] in s.queue;
    }
  }

  lemma HandedKnown(s: State, f: Frame, o: Outcome)
    requires Known(s) && s.inHand == Some(f)
    ensures Known(Handed(s, f, o))
  {
    hide HasKey;
  }

  lemma KnownKept(s: State, e: Event)
    requires Known(s)
    ensures Known(Next(s, e))
  {
    hide HasKey, Entered, Drained, Handed;
    if Enabled(s, e) {
      if e.Enter? {
        EnteredKnown(s, s.entering.value, e.now, e.queuedAt);
      } else if e.Drain? {
        DrainedKnown(s, e.now, e.free);
      } else if e.Hand? {
        HandedKnown(s, s.inHand.value, e.outcome);
      }
    }
  }

  lemma {:induction false} AlwaysKnown(es: seq<Event>)
    ensures Known(Run(es))
  {
    hide Known, Next;
    if es == [] {
      assert Known(INITIAL) by { InitialKnown(); }
    } else {
      AlwaysKnown(es[..|es| - 1]);
      KnownKept(Run(es[..|es| - 1]), es[|es| - 1]);
    }
  }

  lemma InitialKnown()
    ensures Known(INITIAL)
  {
  }

  lemma {:induction false} BackKnown(before: int, queue: seq<Pending>, n: int)
    requires before < n && forall p :: p in queue ==> p.frame.index < n
    ensures Back(before, queue) < n
    decreases |queue|
  {
    if queue != [] {
      BackKnown(queue[0].frame.index, queue[1..], n);
    }
  }

  /** Nothing the callback thread has to finish first, and nothing queued has expired. */
  predicate Drainable(s: State) {
    s.inHand.None? && s.stage == Free && !Expired(s.queue, s.clock)
  }

  lemma DrainOne(s: State)
    requires Drainable(s) && s.queue != [] && InOrder(s.queue, s.clock)
    ensures var s' := RunFrom(s, [Drain(s.clock, true), Hand(Taken)]); var f := s.queue[0].frame;
      s' == s.(queue := s.queue[1..], bytes := s.bytes - f.size, log := s.log + [Submit(f)], streak := 0)
      && Drainable(s') && InOrder(s'.queue, s'.clock)
  {
    hide HasKey, RunFrom;
    RunTwo(s, Drain(s.clock, true), Hand(Taken));
  }

  /** The codec can take what is queued, in order, without the clock moving on. */
  lemma {:induction false} DrainAll(s: State) returns (es: seq<Event>)
    requires Drainable(s) && InOrder(s.queue, s.clock)
    ensures var s' := RunFrom(s, es);
      && s'.queue == [] && Drainable(s') && s'.ready == s.ready && s'.recovering == s.recovering
      && s'.calls == s.calls && s'.entering == s.entering
      && LastSubmitted(s'.log) == Back(LastSubmitted(s.log), s.queue)
      && s'.bytes == s.bytes - Load(s.queue)
    ensures EndsNothing(es)
    decreases |s.queue|
  {
    es := [];
    if s.queue != [] {
      hide Drainable, InOrder;
      var one := [Drain(s.clock, true), Hand(Taken)];
      DrainOne(s);
      var s1 := RunFrom(s, one);
      es := DrainAll(s1);
      RunConcat(s, one, es);
      es := one + es;
    }
  }

  function NextFrame(clock: int): seq<Event> {
    [Call(1, false), Enter(clock, clock)] + [Drain(clock, true), Hand(Taken)]
  }

  /** With nothing queued and the chain open, the next frame goes straight to the codec. */
  lemma NextFrameIsSubmitted(s: State)
    requires s.queue == [] && Drainable(s) && s.entering.None? && s.ready && !s.recovering && s.bytes == 0
    ensures RunFrom(s, NextFrame(s.clock)).log == s.log + [Submit(Frame(s.calls, 1, false))]
  {
    hide RunFrom;
    var f, t := Frame(s.calls, 1, false), s.clock;
    var s1 := Next(Next(s, Call(1, false)), Enter(t, t));
    assert s1 == s.(calls := s.calls + 1, queue := [Pending(f, t)], bytes := 1);
    RunTwo(s, Call(1, false), Enter(t, t));
    RunTwo(s1, Drain(t, true), Hand(Taken));
    RunConcat(s, [Call(1, false), Enter(t, t)], [Drain(t, true), Hand(Taken)]);
  }

  /** Ended over a gap, a recovery lets the codec take a frame whose predecessor it never saw. */
  lemma ExposedBreaksTheChain(s: State) returns (es: seq<Event>)
    requires Linked(s) && Bounded(s) && s.inHand.None? && Exposed(s) && Back(Front(s), s.queue) < s.calls
    ensures !Chained(RunFrom(Ended(s), es).log) && EndsNothing(es)
  {
    assert s.entering.None?;
    hide RunFrom, Continues, Back, Load, EndsNothing, InOrder;
    var s1 := Ended(s);
    var drain := DrainAll(s1);
    var s2 := RunFrom(s1, drain);
    NextFrameIsSubmitted(s2);
    var log := s2.log + [Submit(Frame(s2.calls, 1, false))];
    assert log[..|s2.log|] == s2.log && !Follows(LastSubmitted(s2.log), log[|s2.log|].frame);
    RunConcat(s1, drain, NextFrame(s2.clock));
    es := drain + NextFrame(s2.clock);
    assert EndsNothing(es) by { EndsNothingConcat(drain, s2.clock); }
  }

  lemma EndsNothingConcat(es: seq<Event>, clock: int)
    requires EndsNothing(es)
    ensures EndsNothing(es + NextFrame(clock))
  {
  }

  lemma {:induction false} TameContinuation(es: seq<Event>, e: Event, fs: seq<Event>)
    requires NeverEndsExposed(es) && !EndsExposed(Run(es), e) && EndsNothing(fs)
    ensures NeverEndsExposed(es + [e] + fs)
  {
    hide RunFrom, Exposed, Enabled;
    if fs == [] {
      assert (es + [e])[..|es|] == es;
      assert es + [e] + fs == es + [e];
    } else {
      var m := |fs| - 1;
      assert (es + [e] + fs)[..|es| + 1 + m] == es + [e] + fs[..m];
      TameContinuation(es, e, fs[..m]);
    }
  }

  /**
   A step that ends a recovery, by success or by giving up, leaves every later submission chained,
   whatever follows, if and only if it does not find the chain open over frames turned away, with
   nothing expired in the queue.
   */
  lemma EndingIsSafeUnlessExposed(es: seq<Event>, e: Event)
    requires NeverEndsExposed(es) && Ends(e) && Enabled(Run(es), e)
    ensures (forall fs :: EndsNothing(fs) ==> Chained(Run(es + [e] + fs).log)) <==> !Exposed(Run(es))
  {
    var s := Run(es);
    if Exposed(s) {
      hide RunFrom, NeverEndsExposed, EndsNothing, Chained, Back, Continues;
      AlwaysLinked(es);
      AlwaysBounded(es);
      AlwaysKnown(es);
      BackKnown(Front(s), s.queue, s.calls);
      var fs := ExposedBreaksTheChain(s);
      RunConcat(INITIAL, es, [e]);
      RunConcat(INITIAL, es + [e], fs);
      RunOne(s, e);
      assert EndsNothing(fs) && !Chained(Run(es + [e] + fs).log);
    } else {
      forall fs | EndsNothing(fs)
        ensures Chained(Run(es + [e] + fs).log)
      {
        TameContinuation(es, e, fs);
        SubmissionsAreChained(es + [e] + fs);
      }
    }
  }

  lemma {:induction false} EndsNothingNeverEnds(es: seq<Event>)
    requires EndsNothing(es)
    ensures NeverEndsExposed(es)
  {
    hide RunFrom, Exposed, Enabled;
    if es != [] {
      EndsNothingNeverEnds(es[..|es| - 1]);
    }
  }

  lemma RunSnoc(es: seq<Event>, e: Event)
    ensures Run(es + [e]) == Next(Run(es), e)
  {
    hide Next;
    assert (es + [e])[..|es|] == es;
  }

  /** A keyframe past feed's first test meets an error. */
  const ERROR: seq<Event> := [Call(1, true)] + [Fail] + [Arm]

  /** It is queued once the queue has been cleared, and the next frame is turned away. */
  function Crossing(e: Event): seq<Event> {
    if e.Resume? then ERROR + [Wipe] + [Enter(0, 0)] + [Call(1, false)] + [Rebuild(true)]
    else ERROR + [Enter(0, 0)] + [Call(1, false)]
  }

  /** The chain is open over frame 0, frame 1 turned away. */
  function Crossed(e: Event): State {
    State([Pending(Frame(0, 1, true), 0)], 1, true, 0, true, 2, None, None, if e.Resume? then Rebuilt else Free, 0,
          if e.Resume? then [Reset] else [])
  }

  lemma ErrorRuns()
    ensures Run(ERROR) == INITIAL.(calls := 1, entering := Some(Frame(0, 1, true)), recovering := true)
  {
    hide RunFrom, HasKey;
    RunOne(INITIAL, Call(1, true));
    RunSnoc([Call(1, true)], Fail);
    RunSnoc([Call(1, true)] + [Fail], Arm);
  }

  lemma CrossingRuns(e: Event)
    requires Ends(e)
    ensures Run(Crossing(e)) == Crossed(e)
  {
    ErrorRuns();
    hide RunFrom, HasKey, ERROR;
    if e.Resume? {
      RunSnoc(ERROR, Wipe);
      RunSnoc(ERROR + [Wipe], Enter(0, 0));
      RunSnoc(ERROR + [Wipe] + [Enter(0, 0)], Call(1, false));
      RunSnoc(ERROR + [Wipe] + [Enter(0, 0)] + [Call(1, false)], Rebuild(true));
    } else {
      RunSnoc(ERROR, Enter(0, 0));
      RunSnoc(ERROR + [Enter(0, 0)], Call(1, false));
    }
  }

  /** Both ways of ending a recovery can be reached over a gap. */
  lemma RecoveriesCanEndExposed(e: Event)
    requires Ends(e)
    ensures NeverEndsExposed(Crossing(e)) && EndsExposed(Run(Crossing(e)), e)
  {
    CrossingRuns(e);
    EndsNothingNeverEnds(Crossing(e));
    assert Crossed(e).queue[1..] == [];
    hide RunFrom, NeverEndsExposed;
  }

  lemma SkippingIsUnchained(f: Frame, g: Frame)
    requires !g.key && g.index != f.index + 1
    ensures !Chained([Reset] + [Submit(f)] + [Submit(g)])
  {
    var log := [Reset] + [Submit(f)] + [Submit(g)];
    assert log[..2] == [Reset] + [Submit(f)];
    assert !Follows(LastSubmitted(log[..2]), log[2].frame);
  }

  /** With one frame queued on an open chain, the codec takes that frame and then the next one fed. */
  lemma LastAndNext(s: State, p: Pending)
    requires s.queue == [p] && Drainable(s) && InOrder(s.queue, s.clock)
    requires s.entering.None? && s.ready && !s.recovering && s.bytes == p.frame.size
    ensures RunFrom(s, [Drain(s.clock, true), Hand(Taken)] + NextFrame(s.clock)).log ==
      s.log + [Submit(p.frame)] + [Submit(Frame(s.calls, 1, false))]
  {
    hide RunFrom, NextFrame, Expired;
    DrainOne(s);
    var one := [Drain(s.clock, true), Hand(Taken)];
    NextFrameIsSubmitted(RunFrom(s, one));
    RunConcat(s, one, NextFrame(s.clock));
  }

  /** After a recovery that succeeded: frame 2 is submitted after frame 0, frame 1 having been turned away. */
  lemma SuccessfulRecoveryBreaksTheChain()
    ensures var es := Crossing(Resume) + [Resume] + ([Drain(0, true), Hand(Taken)] + NextFrame(0));
      Run(es).log == [Reset] + [Submit(Frame(0, 1, true))] + [Submit(Frame(2, 1, false))] && !Chained(Run(es).log)
  {
    CrossingRuns(Resume);
    RunSnoc(Crossing(Resume), Resume);
    var s1 := Ended(Crossed(Resume));
    assert Run(Crossing(Resume) + [Resume]) == s1;
    hide RunFrom, Chained, Crossing, NextFrame;
    LastAndNext(s1, Pending(Frame(0, 1, true), 0));
    hide Crossed, Ended, HasKey;
    RunConcat(INITIAL, Crossing(Resume) + [Resume], [Drain(0, true), Hand(Taken)] + NextFrame(0));
    SkippingIsUnchained(Frame(0, 1, true), Frame(2, 1, false));
  }
}
