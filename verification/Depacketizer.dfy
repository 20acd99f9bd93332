/**
 The client's VideoDepacketizer (RtpReceiver.java): RTP payloads into Annex B access units.

 Depack is the object's state as a value, Fed and Gapped the specification of its two methods;
 the class at the end carries the state in fields and is proved to follow them. In between:
 what holds for arbitrary bytes.
 */
module Depacketizer {
  import opened Bytes
  import opened AnnexB
  import opened Packetizer

  const MAX_FRAME_BYTES: nat := 4 * 1024 * 1024

  /** An access unit handed to the sink. */
  datatype Frame = Frame(data: seq<byte>, ptsUsec: int, keyframe: bool)

  datatype Depack = Depack(
    frame: seq<byte>, fuActive: bool, fuType: int, keyframe: bool,
    damaged: bool, pendingGap: bool, awaitingKeyframe: bool, framePts: Option<int>)

  const FRESH := Depack([], false, 0, false, false, false, false, None)

  // ------------------------------------------------------------------ the two operations

  function Invalidated(s: Depack): Depack {
    s.(damaged := true, awaitingKeyframe := true, frame := [], fuActive := false)
  }

  function Gapped(s: Depack): Depack {
    Invalidated(s.(pendingGap := true))
  }

  /** A new timestamp abandons the unit in progress, then the pending gap taints the unit. */
  function Synced(s: Depack, ptsUsec: int): Depack {
    var s1 :=
      if s.framePts == Some(ptsUsec) then s
      else (if s.framePts.Some? then Invalidated(s) else s)
        .(frame := [], fuActive := false, keyframe := false, damaged := s.pendingGap, framePts := Some(ptsUsec));
    s1.(damaged := s1.damaged || s1.pendingGap, pendingGap := false)
  }

  function WithNal(c: Codec, s: Depack, nal: Nal): Depack
    requires nal != []
  {
    s.(frame := s.frame + [0, 0, 0, 1] + nal, keyframe := s.keyframe || c.IsIdr(c.TypeOf(nal[0])))
  }

  function WithFragment(c: Codec, s: Depack, p: seq<byte>): Depack
    requires |p| >= c.HeaderSize()
  {
    var h := c.HeaderSize();
    if |p| <= h + 1 then Invalidated(s)
    else
      var start := p[h] / 128 == 1;
      var end := p[h] / 64 % 2 == 1;
      var original := p[h] % c.TypeRange();
      if (start && (s.fuActive || end)) || (!start && (!s.fuActive || original != s.fuType)) then Invalidated(s)
      else
        var s1 := if start
                  then WithNal(c, s, [c.WithType(p[0], original)] + p[1..h]).(fuType := original)
                  else s;
        s1.(frame := s1.frame + p[h + 1..], fuActive := !end)
  }

  function WithAggregate(c: Codec, s: Depack, p: seq<byte>, i: nat): Depack
    decreases |p| - i
  {
    if i >= |p| then s
    else if i + 2 > |p| then Invalidated(s)
    else
      var len := Read16(p, i);
      if len < c.HeaderSize() || i + 2 + len > |p| || |s.frame| + len + 4 > MAX_FRAME_BYTES then Invalidated(s)
      else WithAggregate(c, WithNal(c, s, p[i + 2..i + 2 + len]), p, i + 2 + len)
  }

  function Taken(c: Codec, s: Depack, p: seq<byte>): Depack {
    if s.damaged then s
    else if |p| < c.HeaderSize() || |s.frame| + |p| + 4 > MAX_FRAME_BYTES then Invalidated(s)
    else if c.TypeOf(p[0]) == c.FragmentType() then WithFragment(c, s, p)
    else if s.fuActive then Invalidated(s)
    else if c.TypeOf(p[0]) == c.AggregateType() then WithAggregate(c, s, p, c.HeaderSize())
    else if c.IsSingle(c.TypeOf(p[0])) then WithNal(c, s, p)
    else Invalidated(s)
  }

  predicate Emits(s: Depack) {
    !s.damaged && s.frame != [] && (!s.awaitingKeyframe || s.keyframe)
  }

  /** The marker closes the unit: emitted or not, nothing of it stays behind. */
  function Ended(s: Depack, ptsUsec: int): (Depack, Option<Frame>) {
    var s1 := if s.fuActive then Invalidated(s) else s;
    var s2 := s1.(frame := [], fuActive := false, keyframe := false, damaged := false, framePts := None);
    if Emits(s1) then (s2.(awaitingKeyframe := false), Some(Frame(s1.frame, ptsUsec, s1.keyframe)))
    else (s2, None)
  }

  function Fed(c: Codec, s: Depack, p: seq<byte>, marker: bool, ptsUsec: int): (Depack, Option<Frame>) {
    var s1 := Taken(c, Synced(s, ptsUsec), p);
    if marker then Ended(s1, ptsUsec) else (s1, None)
  }

  // ------------------------------------------------------------------ whole runs

  datatype Event = Gap | Packet(payload: seq<byte>, marker: bool, ptsUsec: int)

  function Step(c: Codec, s: Depack, e: Event): (Depack, Option<Frame>) {
    match e
    case Gap => (Gapped(s), None)
    case Packet(p, marker, pts) => Fed(c, s, p, marker, pts)
  }

  function Run(c: Codec, s: Depack, es: seq<Event>): (Depack, seq<Frame>)
    decreases |es|
  {
    if es == [] then (s, [])
    else
      var (s1, f) := Step(c, s, es[0]);
      var (s2, fs) := Run(c, s1, es[1..]);
      (s2, ToSeq(f) + fs)
  }

  lemma {:induction false} RunConcat(c: Codec, s: Depack, a: seq<Event>, b: seq<Event>)
    ensures var r1 := Run(c, s, a); var r2 := Run(c, r1.0, b);
      Run(c, s, a + b) == (r2.0, r1.1 + r2.1)
    decreases |a|
  {
    if a == [] {
      assert a + b == b && [] + Run(c, s, b).1 == Run(c, s, b).1;
    } else {
      assert (a + b)[1..] == a[1..] + b;
      var (s1, f) := Step(c, s, a[0]);
      RunConcat(c, s1, a[1..], b);
      var r1 := Run(c, s1, a[1..]);
      var r2 := Run(c, r1.0, b);
      assert ToSeq(f) + (r1.1 + r2.1) == (ToSeq(f) + r1.1) + r2.1;
    }
  }

  // ------------------------------------------------------------------ arbitrary bytes

  ghost predicate HasIdr(c: Codec, nals: seq<Nal>) {
    exists n :: n in nals && n != [] && c.IsIdr(c.TypeOf(n[0]))
  }

  /** By the numbers of the two standards: types 19 and 20 of H.265, type 5 of H.264. */
  predicate IdrByNumber(c: Codec, n: Nal) {
    n != [] && if c.H265? then n[0] / 2 % 64 == 19 || n[0] / 2 % 64 == 20 else n[0] % 32 == 5
  }

  lemma IdrIsByNumber(c: Codec, nals: seq<Nal>)
    ensures HasIdr(c, nals) <==> exists n :: n in nals && IdrByNumber(c, n)
  {
    if n :| n in nals && n != [] && c.IsIdr(c.TypeOf(n[0])) {
      assert IdrByNumber(c, n);
    }
    if n :| n in nals && IdrByNumber(c, n) {
      assert c.IsIdr(c.TypeOf(n[0]));
    }
  }

  lemma HasIdrSnoc(c: Codec, nals: seq<Nal>, n: Nal)
    requires n != []
    ensures HasIdr(c, nals + [n]) <==> HasIdr(c, nals) || c.IsIdr(c.TypeOf(n[0]))
  {
    if c.IsIdr(c.TypeOf(n[0])) {
      assert n in nals + [n];
    }
    if HasIdr(c, nals) {
      var m :| m in nals && m != [] && c.IsIdr(c.TypeOf(m[0]));
      assert m in nals + [n];
    }
  }

  /** The partial frame holds exactly `nals`, the last of them open while fuActive. */
  ghost predicate Holds(c: Codec, s: Depack, nals: seq<Nal>) {
    && (forall n :: n in nals ==> |n| >= c.HeaderSize())
    && |s.frame| <= MAX_FRAME_BYTES
    && s.frame == AnnexB4(nals)
    && (s.damaged || s.pendingGap ==> nals == [] && s.awaitingKeyframe)
    && (!s.damaged ==> (s.keyframe <==> HasIdr(c, nals)))
    && (s.fuActive ==> nals != [] && s.fuType == c.TypeOf(nals[|nals| - 1][0]))
  }

  /** What reaches the sink: start code and unit, over and over, each at least one header long. */
  ghost predicate BuiltFrom(c: Codec, f: Frame, nals: seq<Nal>) {
    && nals != []
    && (forall n :: n in nals ==> |n| >= c.HeaderSize())
    && f.data == AnnexB4(nals)
    && |f.data| <= MAX_FRAME_BYTES
    && (f.keyframe <==> HasIdr(c, nals))
  }

  lemma HoldsNothing(c: Codec, s: Depack)
    requires s.frame == [] && !s.fuActive && (s.damaged || !s.keyframe)
    requires s.damaged || s.pendingGap ==> s.awaitingKeyframe
    ensures Holds(c, s, [])
  {
  }

  lemma HoldsOneMore(c: Codec, s: Depack, nals: seq<Nal>, n: Nal)
    requires Holds(c, s, nals) && !s.damaged && !s.pendingGap && |n| >= c.HeaderSize()
    requires |s.frame| + |n| + 4 <= MAX_FRAME_BYTES
    ensures Holds(c, WithNal(c, s, n).(fuActive := false), nals + [n])
  {
    assert (nals + [n])[..|nals|] == nals;
    HasIdrSnoc(c, nals, n);
  }

  lemma HoldsLonger(c: Codec, s: Depack, nals: seq<Nal>, more: seq<byte>) returns (nals': seq<Nal>)
    requires Holds(c, s, nals) && nals != [] && !s.damaged
    requires |s.frame| + |more| <= MAX_FRAME_BYTES
    ensures nals' == nals[..|nals| - 1] + [nals[|nals| - 1] + more]
    ensures Holds(c, s.(frame := s.frame + more), nals')
  {
    var m := |nals| - 1;
    nals' := nals[..m] + [nals[m] + more];
    assert nals == nals[..m] + [nals[m]];
    assert nals'[..m] == nals[..m];
    assert HasIdr(c, nals') <==> HasIdr(c, nals) by {
      if HasIdr(c, nals) {
        var n :| n in nals && n != [] && c.IsIdr(c.TypeOf(n[0]));
        assert (if n == nals[m] then nals'[m] else n) in nals';
      }
      if HasIdr(c, nals') {
        var n :| n in nals' && n != [] && c.IsIdr(c.TypeOf(n[0]));
        assert (if n == nals'[m] then nals[m] else n) in nals;
      }
    }
  }

  lemma FragmentKeeps(c: Codec, s: Depack, nals: seq<Nal>, p: seq<byte>) returns (nals': seq<Nal>)
    requires Holds(c, s, nals) && !s.damaged && !s.pendingGap && |p| >= c.HeaderSize()
    requires |s.frame| + |p| + 4 <= MAX_FRAME_BYTES
    ensures Holds(c, WithFragment(c, s, p), nals')
  {
    var h := c.HeaderSize();
    var s' := WithFragment(c, s, p);
    if s'.damaged {
      HoldsNothing(c, s');
      nals' := [];
    } else {
      var start := p[h] / 128 == 1;
      var original := p[h] % c.TypeRange();
      var s1, ns := s, nals;
      if start {
        var head := [c.WithType(p[0], original)] + p[1..h];
        HoldsOneMore(c, s, nals, head);
        s1, ns := WithNal(c, s, head).(fuType := original), nals + [head];
      }
      nals' := HoldsLonger(c, s1, ns, p[h + 1..]);
    }
  }

  lemma {:induction false} AggregateKeeps(c: Codec, s: Depack, nals: seq<Nal>, p: seq<byte>, i: nat)
    returns (nals': seq<Nal>)
    requires Holds(c, s, nals) && !s.damaged && !s.pendingGap && !s.fuActive
    ensures Holds(c, WithAggregate(c, s, p, i), nals')
    decreases |p| - i
  {
    var s' := WithAggregate(c, s, p, i);
    if i >= |p| {
      nals' := nals;
    } else if s' == Invalidated(s) {
      HoldsNothing(c, s');
      nals' := [];
    } else {
      var n := p[i + 2..i + 2 + Read16(p, i)];
      HoldsOneMore(c, s, nals, n);
      nals' := AggregateKeeps(c, WithNal(c, s, n), nals + [n], p, i + 2 + |n|);
    }
  }

  lemma TakeKeeps(c: Codec, s: Depack, nals: seq<Nal>, p: seq<byte>) returns (nals': seq<Nal>)
    requires Holds(c, s, nals) && !s.pendingGap
    ensures Holds(c, Taken(c, s, p), nals')
  {
    var s' := Taken(c, s, p);
    if s.damaged {
      nals' := nals;
    } else if s' == Invalidated(s) {
      HoldsNothing(c, s');
      nals' := [];
    } else if c.TypeOf(p[0]) == c.FragmentType() {
      nals' := FragmentKeeps(c, s, nals, p);
    } else if c.TypeOf(p[0]) == c.AggregateType() {
      nals' := AggregateKeeps(c, s, nals, p, c.HeaderSize());
    } else {
      HoldsOneMore(c, s, nals, p);
      nals' := nals + [p];
    }
  }

  ghost predicate Sound(c: Codec, s: Depack) {
    exists nals :: Holds(c, s, nals)
  }

  ghost predicate Genuine(c: Codec, f: Frame) {
    exists nals :: BuiltFrom(c, f, nals)
  }

  /** Whatever is fed: the frame stays bounded and made of whole units, and so is what is emitted. */
  lemma StepKeeps(c: Codec, s: Depack, e: Event)
    requires Sound(c, s)
    ensures Sound(c, Step(c, s, e).0)
    ensures Step(c, s, e).1.Some? ==>
      && Genuine(c, Step(c, s, e).1.value)
      && (s.awaitingKeyframe ==> Step(c, s, e).1.value.keyframe)
    ensures s.awaitingKeyframe && Step(c, s, e).1.None? ==> Step(c, s, e).0.awaitingKeyframe
  {
    match e
    case Gap => HoldsNothing(c, Gapped(s));
    case Packet(p, marker, pts) =>
      var nals := SyncKeeps(c, s, pts);
      var s1 := Synced(s, pts);
      var s2 := Taken(c, s1, p);
      nals := TakeKeeps(c, s1, nals, p);
      AwaitingKept(c, s1, p);
      if marker {
        var (s3, f) := Ended(s2, pts);
        if f.Some? {
          assert BuiltFrom(c, f.value, nals);
        }
        HoldsNothing(c, s3);
      }
  }

  lemma SyncKeeps(c: Codec, s: Depack, ptsUsec: int) returns (nals: seq<Nal>)
    requires Sound(c, s)
    ensures Holds(c, Synced(s, ptsUsec), nals)
  {
    nals :| Holds(c, s, nals);
    if s.framePts != Some(ptsUsec) {
      nals := [];
    }
  }

  lemma {:induction false} AggregateAwaiting(c: Codec, s: Depack, p: seq<byte>, i: nat)
    ensures s.awaitingKeyframe ==> WithAggregate(c, s, p, i).awaitingKeyframe
    ensures WithAggregate(c, s, p, i).pendingGap == s.pendingGap
    decreases |p| - i
  {
    if i + 2 <= |p| {
      var len := Read16(p, i);
      if len >= c.HeaderSize() && i + 2 + len <= |p| {
        AggregateAwaiting(c, WithNal(c, s, p[i + 2..i + 2 + len]), p, i + 2 + len);
      }
    }
  }

  lemma AwaitingKept(c: Codec, s: Depack, p: seq<byte>)
    ensures s.awaitingKeyframe ==> Taken(c, s, p).awaitingKeyframe
    ensures Taken(c, s, p).pendingGap == s.pendingGap
  {
    AggregateAwaiting(c, s, p, c.HeaderSize());
  }

  /** Every frame of every run is genuine, and a run that starts out awaiting resumes on an IDR. */
  lemma {:induction false} RunSound(c: Codec, s: Depack, es: seq<Event>)
    requires Sound(c, s)
    ensures Sound(c, Run(c, s, es).0)
    ensures forall f :: f in Run(c, s, es).1 ==> Genuine(c, f)
    ensures s.awaitingKeyframe && Run(c, s, es).1 != [] ==> Run(c, s, es).1[0].keyframe
    decreases |es|
  {
    if es != [] {
      StepKeeps(c, s, es[0]);
      RunSound(c, Step(c, s, es[0]).0, es[1..]);
    }
  }

  /**
   A gap, a timestamp that abandons a unit without its marker, a packet that cannot be used, or a
   marker that finds a fragment still open.
   */
  ghost predicate Breaks(c: Codec, s: Depack, e: Event) {
    match e
    case Gap => true
    case Packet(p, marker, pts) =>
      var s1 := Taken(c, Synced(s, pts), p);
      (s.framePts.Some? && s.framePts != Some(pts)) || s1.damaged || (marker && s1.fuActive)
  }

  /** Wherever a break falls in any run, the first frame emitted from it on, by it or later, contains an IDR unit. */
  lemma BreakNeedsIdr(c: Codec, before: seq<Event>, e: Event, after: seq<Event>)
    requires Breaks(c, Run(c, FRESH, before).0, e)
    ensures var fs := Run(c, Run(c, FRESH, before).0, [e] + after).1;
      fs != [] ==> exists nals :: BuiltFrom(c, fs[0], nals) && HasIdr(c, nals)
  {
    HoldsNothing(c, FRESH);
    RunSound(c, FRESH, before);
    var s := Run(c, FRESH, before).0;
    BreakResumes(c, s, e);
    StepKeeps(c, s, e);
    RunSound(c, s, [e] + after);
    assert ([e] + after)[1..] == after;
    RunSound(c, Step(c, s, e).0, after);
    var fs := Run(c, s, [e] + after).1;
    if fs != [] {
      assert Genuine(c, fs[0]) && fs[0].keyframe;
    }
  }

  /** A break emits a keyframe or nothing, and then an IDR is awaited. */
  lemma BreakResumes(c: Codec, s: Depack, e: Event)
    requires Sound(c, s) && Breaks(c, s, e)
    ensures var (s1, f) := Step(c, s, e);
      if f.Some? then f.value.keyframe else s1.awaitingKeyframe
  {
    if e.Packet? {
      AwaitingKept(c, Synced(s, e.ptsUsec), e.payload);
      var nals := SyncKeeps(c, s, e.ptsUsec);
      nals := TakeKeeps(c, Synced(s, e.ptsUsec), nals, e.payload);
    }
  }

  // ------------------------------------------------------------------ the object

  class VideoDepacketizer {
    const codec: Codec
    var frame: seq<byte>
    var fuActive: bool
    var fuType: int
    var keyframe: bool
    var damaged: bool
    var pendingGap: bool
    var awaitingKeyframe: bool
    var framePts: Option<int>

    ghost function State(): Depack
      reads this
    {
      Depack(frame, fuActive, fuType, keyframe, damaged, pendingGap, awaitingKeyframe, framePts)
    }

    constructor (codec: Codec)
      ensures this.codec == codec && State() == FRESH
    {
      this.codec := codec;
      frame, fuActive, fuType, keyframe := [], false, 0, false;
      damaged, pendingGap, awaitingKeyframe, framePts := false, false, false, None;
    }

    method OnGap()
      modifies this
      ensures State() == Gapped(old(State()))
    {
      pendingGap := true;
      Invalidate();
    }

    method NeedsKeyframe() returns (r: bool)
      ensures r == State().awaitingKeyframe
    {
      r := awaitingKeyframe;
    }

    method Invalidate()
      modifies this
      ensures State() == Invalidated(old(State()))
    {
      damaged := true;
      awaitingKeyframe := true;
      frame := [];
      fuActive := false;
    }

    method AddNal(nal: Nal)
      requires nal != []
      modifies this
      ensures State() == WithNal(codec, old(State()), nal)
    {
      keyframe := keyframe || codec.IsIdr(codec.TypeOf(nal[0]));
      frame := frame + [0, 0, 0, 1] + nal;
    }

    method TakeFragment(p: seq<byte>)
      requires |p| >= codec.HeaderSize()
      modifies this
      ensures State() == WithFragment(codec, old(State()), p)
    {
      var header := codec.HeaderSize();
      if |p| <= header + 1 {
        Invalidate();
      } else {
        var start := p[header] / 128 == 1;
        var end := p[header] / 64 % 2 == 1;
        var original := p[header] % codec.TypeRange();
        if (start && (fuActive || end)) || (!start && (!fuActive || original != fuType)) {
          Invalidate();
        } else {
          if start {
            AddNal([codec.WithType(p[0], original)] + p[1..header]);
            fuActive := true;
            fuType := original;
          }
          frame := frame + p[header + 1..];
          if end { fuActive := false; }
        }
      }
    }

    method TakeAggregate(p: seq<byte>)
      requires |p| >= codec.HeaderSize() && !damaged
      modifies this
      ensures State() == WithAggregate(codec, old(State()), p, codec.HeaderSize())
    {
      var header := codec.HeaderSize();
      var i := header;
      ghost var result := WithAggregate(codec, State(), p, header);
      while i < |p| && !damaged
        invariant 0 <= i
        invariant result == if damaged then State() else WithAggregate(codec, State(), p, i)
        decreases |p| - i, !damaged
      {
        if i + 2 > |p| { Invalidate(); break; }
        var nlen := Read16(p, i);
        i := i + 2;
        if nlen < header || i + nlen > |p| || |frame| + nlen + 4 > MAX_FRAME_BYTES { Invalidate(); break; }
        AddNal(p[i..i + nlen]);
        i := i + nlen;
      }
    }

    method TakePayload(p: seq<byte>)
      modifies this
      ensures State() == Taken(codec, old(State()), p)
    {
      if !damaged {
        if |p| < codec.HeaderSize() || |frame| + |p| + 4 > MAX_FRAME_BYTES {
          Invalidate();
        } else {
          var type' := codec.TypeOf(p[0]);
          if type' == codec.FragmentType() {
            TakeFragment(p);
          } else if fuActive {
            Invalidate();
          } else if type' == codec.AggregateType() {
            TakeAggregate(p);
          } else if codec.IsSingle(type') {
            AddNal(p);
          } else {
            Invalidate();
          }
        }
      }
    }

    /** Returns what the sink's onFrame receives, if it is called. */
    method Feed(p: seq<byte>, marker: bool, ptsUsec: int) returns (sink: Option<Frame>)
      modifies this
      ensures (State(), sink) == Fed(codec, old(State()), p, marker, ptsUsec)
    {
      sink := None;
      if framePts != Some(ptsUsec) {
        if framePts != None { Invalidate(); }
        frame := [];
        fuActive := false;
        keyframe := false;
        damaged := pendingGap;
        framePts := Some(ptsUsec);
      }
      if pendingGap { damaged := true; }
      pendingGap := false;
      assert State() == Synced(old(State()), ptsUsec);
      TakePayload(p);
      if marker {
        if fuActive { Invalidate(); }
        if !damaged && |frame| > 0 && (!awaitingKeyframe || keyframe) {
          awaitingKeyframe := false;
          sink := Some(Frame(frame, ptsUsec, keyframe));
        }
        frame := [];
        fuActive := false;
        keyframe := false;
        damaged := false;
        framePts := None;
      }
    }
  }
}
