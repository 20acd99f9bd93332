/**
 The depacketizer undoes the packetizer: the packets of one access unit, fed in order from a unit
 boundary, give back that unit's NAL units behind four-byte start codes, exactly once, or nothing.
 */
module RoundTrip {
  import opened Bytes
  import opened AnnexB
  import opened Packetizer
  import opened Depacketizer

  /** Units an encoder emits: RFC 7798 and RFC 6184 reserve the other types for packets. */
  ghost predicate Legal(c: Codec, nals: seq<Nal>) {
    forall n :: n in nals ==> |n| >= 2 && c.IsSingle(c.TypeOf(n[0]))
  }

  ghost predicate AtBoundary(s: Depack) {
    && s.frame == [] && !s.fuActive && !s.keyframe
    && !s.damaged && !s.pendingGap && s.framePts.None?
  }

  /** The payloads as fed: one timestamp, the marker on the last. */
  function Marked(payloads: seq<seq<byte>>, ptsUsec: int): (es: seq<Event>)
    ensures |es| == |payloads|
  {
    if payloads == [] then []
    else [Event.Packet(payloads[0], |payloads| == 1, ptsUsec)] + Marked(payloads[1..], ptsUsec)
  }

  /** Between two units of the same access unit. */
  ghost predicate InUnit(c: Codec, s: Depack, done: seq<Nal>, ptsUsec: int) {
    && Legal(c, done)
    && s.frame == AnnexB4(done)
    && (s.keyframe <==> HasIdr(c, done))
    && !s.fuActive && !s.damaged && !s.pendingGap
    && (s.framePts == Some(ptsUsec) || (s.framePts.None? && done == []))
  }

  /** Inside a fragmented unit, nal[..off] taken. */
  ghost predicate InFragment(c: Codec, s: Depack, done: seq<Nal>, nal: Nal, off: nat, ptsUsec: int)
    requires nal != [] && off <= |nal|
  {
    && Legal(c, done)
    && s.frame == AnnexB4(done) + [0, 0, 0, 1] + nal[..off]
    && (s.keyframe <==> HasIdr(c, done) || c.IsIdr(c.TypeOf(nal[0])))
    && s.fuActive && s.fuType == c.TypeOf(nal[0])
    && !s.damaged && !s.pendingGap && s.framePts == Some(ptsUsec)
  }

  ghost predicate Lost(s: Depack, ptsUsec: int) {
    s.damaged && s.awaitingKeyframe && s.frame == [] && !s.fuActive && !s.pendingGap && s.framePts == Some(ptsUsec)
  }

  ghost function Whole(c: Codec, nals: seq<Nal>, ptsUsec: int): Frame {
    Frame(AnnexB4(nals), ptsUsec, HasIdr(c, nals))
  }

  /** Room for the whole unit and for the bytes the size test counts on top of it. */
  ghost predicate Fits(nals: seq<Nal>) {
    |AnnexB4(nals)| + 7 <= MAX_FRAME_BYTES
  }

  /**
   The unit came out whole and the chain goes on, or nothing came out and an IDR is awaited.
   If it fits and may be shown, it came out.
   */
  ghost predicate Closed(c: Codec, s: Depack, nals: seq<Nal>, ptsUsec: int, r: (Depack, seq<Frame>)) {
    && AtBoundary(r.0)
    && (if r.1 == [] then r.0.awaitingKeyframe
        else r.1 == [Whole(c, nals, ptsUsec)] && !r.0.awaitingKeyframe && (s.awaitingKeyframe ==> HasIdr(c, nals)))
    && (Fits(nals) && (s.awaitingKeyframe ==> HasIdr(c, nals)) ==> r.1 != [])
  }

  lemma {:induction false} AnnexB4Grows(a: seq<Nal>, b: seq<Nal>)
    ensures |AnnexB4(a)| <= |AnnexB4(a + b)|
    decreases |b|
  {
    if b == [] {
      assert a + b == a;
    } else {
      var m := |b| - 1;
      AnnexB4Grows(a, b[..m]);
      assert (a + b)[..|a + b| - 1] == a + b[..m];
    }
  }

  /** Once a unit is lost, the rest of its packets change nothing up to the marker. */
  lemma {:induction false} LostTail(c: Codec, s: Depack, ps: seq<seq<byte>>, ptsUsec: int)
    requires Lost(s, ptsUsec) && ps != []
    ensures var r := Run(c, s, Marked(ps, ptsUsec)); AtBoundary(r.0) && r.0.awaitingKeyframe && r.1 == []
    decreases |ps|
  {
    var es := Marked(ps, ptsUsec);
    var (s1, f) := Step(c, s, es[0]);
    assert es[1..] == Marked(ps[1..], ptsUsec);
    if |ps| > 1 {
      assert s1 == s;
      LostTail(c, s1, ps[1..], ptsUsec);
    } else {
      assert Run(c, s1, es[1..]) == (s1, []);
    }
  }

  /** The first of several payloads, and the only one. */
  lemma RunMarked(c: Codec, s: Depack, p: seq<byte>, rest: seq<seq<byte>>, ptsUsec: int)
    ensures var r := Run(c, s, Marked([p] + rest, ptsUsec));
      var s1 := Taken(c, Synced(s, ptsUsec), p);
      r == if rest == [] then (Ended(s1, ptsUsec).0, ToSeq(Ended(s1, ptsUsec).1)) else Run(c, s1, Marked(rest, ptsUsec))
  {
    assert ([p] + rest)[1..] == rest;
    var es := Marked([p] + rest, ptsUsec);
    assert es == [Event.Packet(p, rest == [], ptsUsec)] + Marked(rest, ptsUsec);
    assert es[1..] == Marked(rest, ptsUsec);
    var (s1, f) := Step(c, s, es[0]);
    var r := Run(c, s1, es[1..]);
    assert [] + r.1 == r.1 && ToSeq(f) + [] == ToSeq(f);
  }

  lemma InUnitSynced(c: Codec, s: Depack, done: seq<Nal>, ptsUsec: int)
    requires InUnit(c, s, done, ptsUsec)
    ensures Synced(s, ptsUsec) == s.(framePts := Some(ptsUsec))
  {
    hide Legal;
  }

  lemma SingleTaken(c: Codec, s: Depack, nal: Nal)
    requires !s.damaged && !s.fuActive && Legal(c, [nal])
    ensures nal != []
    ensures Taken(c, s, nal) == if |s.frame| + |nal| + 4 > MAX_FRAME_BYTES then Invalidated(s) else WithNal(c, s, nal)
  {
    assert nal in [nal];
    hide WithFragment, WithAggregate, WithNal;
  }

  lemma OneMore(c: Codec, done: seq<Nal>, nal: Nal)
    requires Legal(c, done) && Legal(c, [nal])
    ensures Legal(c, done + [nal]) && AnnexB4(done + [nal]) == AnnexB4(done) + [0, 0, 0, 1] + nal
  {
    assert nal in [nal];
    assert (done + [nal])[..|done|] == done;
  }

  lemma SingleStep(c: Codec, s: Depack, done: seq<Nal>, nal: Nal, ptsUsec: int)
    requires InUnit(c, s, done, ptsUsec) && Legal(c, [nal])
    ensures var s1 := Taken(c, Synced(s, ptsUsec), nal);
      && Legal(c, done + [nal])
      && (s.awaitingKeyframe ==> s1.awaitingKeyframe)
      && (Lost(s1, ptsUsec) || (InUnit(c, s1, done + [nal], ptsUsec) && s1.awaitingKeyframe == s.awaitingKeyframe))
      && (Fits(done + [nal]) ==> !s1.damaged)
  {
    hide Taken, Synced, Legal, HasIdr, AnnexB4;
    InUnitSynced(c, s, done, ptsUsec);
    SingleTaken(c, s.(framePts := Some(ptsUsec)), nal);
    OneMore(c, done, nal);
    HasIdrSnoc(c, done, nal);
  }

  lemma WithTypeBack(c: Codec, b: byte, t: int)
    requires 0 <= t < c.TypeRange()
    ensures c.WithType(c.WithType(b, t), c.TypeOf(b)) == b
  {
    var w := c.WithType(b, t);
    if c.H265? {
      assert w == 128 * (b / 128) + (t * 2 + b % 2) && w / 128 == b / 128 && w % 2 == b % 2;
    } else {
      assert w / 32 == b / 32;
    }
    assert c.WithType(w, c.TypeOf(b)) == c.WithType(b, c.TypeOf(b));
  }

  lemma Layout<T>(a: T, middle: seq<T>, b: T, tail: seq<T>)
    ensures var p := [a] + middle + [b] + tail; var h := 1 + |middle|;
      |p| == h + 1 + |tail| && p[0] == a && p[1..h] == middle && p[h] == b && p[h + 1..] == tail
  {
  }

  /** What the depacketizer reads from a fragment of a unit. */
  lemma FragmentShape(c: Codec, nal: Nal, off: nat)
    requires |nal| > SINGLE_MAX && c.HeaderSize() <= off < |nal|
    ensures var h := c.HeaderSize();
      var end := FragmentEnd(c, nal, off);
      var p := Fragment(c, nal, off, end);
      && off < end <= |nal| && |p| == h + 1 + end - off
      && c.TypeOf(p[0]) == c.FragmentType()
      && (p[h] / 128 == 1 <==> off == h)
      && (p[h] / 64 % 2 == 1 <==> end == |nal|)
      && !(off == h && end == |nal|)
      && p[h] % c.TypeRange() == c.TypeOf(nal[0])
      && [c.WithType(p[0], c.TypeOf(nal[0]))] + p[1..h] == nal[..h]
      && p[h + 1..] == nal[off..end]
  {
    var h := c.HeaderSize();
    var end := FragmentEnd(c, nal, off);
    var p := Fragment(c, nal, off, end);
    FragmentsAreSeveral(c, nal, off);
    assert p in Fragments(c, nal, off);
    Layout(c.WithType(nal[0], c.FragmentType()), nal[1..h], FragmentHeader(off == h, end == |nal|, c.TypeOf(nal[0])),
           nal[off..end]);
    WithTypeBack(c, nal[0], c.FragmentType());
    assert [nal[0]] + nal[1..h] == nal[..h];
  }

  /** What a fragment does to a state that expects it: nal[off..end] is appended, or the unit is lost. */
  lemma FragmentTaken(c: Codec, s: Depack, nal: Nal, off: nat)
    requires |nal| > SINGLE_MAX && c.HeaderSize() <= off < |nal|
    requires !s.damaged && (s.fuActive <==> off > c.HeaderSize())
    requires s.fuActive ==> s.fuType == c.TypeOf(nal[0])
    ensures var end := FragmentEnd(c, nal, off);
      var start := if off > c.HeaderSize() then s
                   else WithNal(c, s, nal[..c.HeaderSize()]).(fuType := c.TypeOf(nal[0]));
      Taken(c, s, Fragment(c, nal, off, end)) ==
        if |s.frame| + c.HeaderSize() + 1 + end - off + 4 > MAX_FRAME_BYTES then Invalidated(s)
        else start.(frame := start.frame + nal[off..end], fuActive := end < |nal|)
  {
    FragmentShape(c, nal, off);
  }

  lemma FragmentFirst(c: Codec, s: Depack, done: seq<Nal>, nal: Nal, ptsUsec: int)
    requires |nal| > SINGLE_MAX && Legal(c, [nal]) && InUnit(c, s, done, ptsUsec)
    ensures var h := c.HeaderSize();
      var end := FragmentEnd(c, nal, h);
      var s1 := Taken(c, Synced(s, ptsUsec), Fragment(c, nal, h, end));
      && h < end < |nal|
      && if |s.frame| + end + 5 > MAX_FRAME_BYTES then Lost(s1, ptsUsec)
         else InFragment(c, s1, done, nal, end, ptsUsec) && s1.awaitingKeyframe == s.awaitingKeyframe
  {
    hide Taken, Fragment, HasIdr, AnnexB4, FragmentEnd, Synced, Legal;
    var h := c.HeaderSize();
    var end := FragmentEnd(c, nal, h);
    var s0 := s.(framePts := Some(ptsUsec));
    InUnitSynced(c, s, done, ptsUsec);
    FragmentTaken(c, s0, nal, h);
    FragmentShape(c, nal, h);
    assert c.TypeOf(nal[..h][0]) == c.TypeOf(nal[0]);
    assert nal[..h] + nal[h..end] == nal[..end];
    assert s.frame + [0, 0, 0, 1] + nal[..h] + nal[h..end] == s.frame + [0, 0, 0, 1] + nal[..end];
  }

  lemma FragmentNext(c: Codec, s: Depack, done: seq<Nal>, nal: Nal, off: nat, ptsUsec: int)
    requires |nal| > SINGLE_MAX && c.HeaderSize() < off < |nal| && Legal(c, [nal])
    requires InFragment(c, s, done, nal, off, ptsUsec)
    ensures var end := FragmentEnd(c, nal, off);
      var s1 := Taken(c, s, Fragment(c, nal, off, end));
      && off < end
      && if |s.frame| + c.HeaderSize() + 1 + end - off + 4 > MAX_FRAME_BYTES then Lost(s1, ptsUsec)
         else
           && s1.awaitingKeyframe == s.awaitingKeyframe
           && if end < |nal| then InFragment(c, s1, done, nal, end, ptsUsec) else InUnit(c, s1, done + [nal], ptsUsec)
  {
    hide Taken, Fragment, HasIdr, AnnexB4, FragmentEnd, Legal;
    var end := FragmentEnd(c, nal, off);
    FragmentTaken(c, s, nal, off);
    FragmentShape(c, nal, off);
    assert nal[..off] + nal[off..end] == nal[..end];
    assert s.frame + nal[off..end] == AnnexB4(done) + [0, 0, 0, 1] + nal[..end];
    if end == |nal| {
      assert nal[..end] == nal;
      OneMore(c, done, nal);
      HasIdrSnoc(c, done, nal);
    }
  }

  lemma FragmentStep(c: Codec, s: Depack, done: seq<Nal>, nal: Nal, off: nat, ptsUsec: int)
    requires |nal| > SINGLE_MAX && c.HeaderSize() <= off < |nal| && Legal(c, [nal])
    requires if off == c.HeaderSize() then InUnit(c, s, done, ptsUsec) else InFragment(c, s, done, nal, off, ptsUsec)
    ensures var end := FragmentEnd(c, nal, off);
      var s1 := Taken(c, Synced(s, ptsUsec), Fragment(c, nal, off, end));
      && Legal(c, done) && Legal(c, done + [nal])
      && (s.awaitingKeyframe ==> s1.awaitingKeyframe)
      && (Lost(s1, ptsUsec) ||
          (s1.awaitingKeyframe == s.awaitingKeyframe &&
           if end < |nal| then InFragment(c, s1, done, nal, end, ptsUsec) else InUnit(c, s1, done + [nal], ptsUsec)))
      && (Fits(done + [nal]) ==> !s1.damaged)
  {
    assert nal in [nal];
    assert |AnnexB4(done + [nal])| == |AnnexB4(done)| + 4 + |nal| by {
      assert (done + [nal])[..|done|] == done;
    }
    if off == c.HeaderSize() {
      FragmentFirst(c, s, done, nal, ptsUsec);
    } else {
      assert Synced(s, ptsUsec) == s;
      FragmentNext(c, s, done, nal, off, ptsUsec);
    }
  }

  lemma EndStep(c: Codec, s: Depack, s1: Depack, nals: seq<Nal>, ptsUsec: int)
    requires nals != [] && InUnit(c, s1, nals, ptsUsec)
    requires s1.awaitingKeyframe == s.awaitingKeyframe
    ensures var (s2, f) := Ended(s1, ptsUsec);
      Closed(c, s, nals, ptsUsec, (s2, ToSeq(f)))
  {
  }

  /** `done` has been taken, or the unit is lost; `rest` is still to come. */
  lemma {:induction false} AfterUnit(c: Codec, s: Depack, s1: Depack, done: seq<Nal>, rest: seq<Nal>, ptsUsec: int,
                                     r: (Depack, seq<Frame>))
    requires done != [] && Legal(c, done) && Legal(c, rest)
    requires s.awaitingKeyframe ==> s1.awaitingKeyframe
    requires Lost(s1, ptsUsec) || (InUnit(c, s1, done, ptsUsec) && s1.awaitingKeyframe == s.awaitingKeyframe)
    requires Fits(done) ==> !s1.damaged
    requires r == if rest == [] then (Ended(s1, ptsUsec).0, ToSeq(Ended(s1, ptsUsec).1))
                  else Run(c, s1, Marked(Payloads(c, rest), ptsUsec))
    ensures Closed(c, s, done + rest, ptsUsec, r)
    decreases |rest|, 1, 0
  {
    AnnexB4Grows(done, rest);
    if rest == [] {
      assert done + rest == done;
      if !Lost(s1, ptsUsec) {
        EndStep(c, s, s1, done, ptsUsec);
      }
    } else if Lost(s1, ptsUsec) {
      LostTail(c, s1, Payloads(c, rest), ptsUsec);
    } else {
      UnitTail(c, s1, done, rest, ptsUsec);
    }
  }

  lemma {:induction false} UnitTail(c: Codec, s: Depack, done: seq<Nal>, nals: seq<Nal>, ptsUsec: int)
    requires InUnit(c, s, done, ptsUsec) && nals != [] && Legal(c, nals)
    ensures var r := Run(c, s, Marked(Payloads(c, nals), ptsUsec));
      Closed(c, s, done + nals, ptsUsec, r)
    decreases |nals|, 0, 0
  {
    var nal, rest := nals[0], nals[1..];
    assert Legal(c, [nal]);
    assert done + [nal] + rest == done + nals;
    if |nal| > SINGLE_MAX {
      FragmentTail(c, s, done, nal, c.HeaderSize(), rest, ptsUsec, Payloads(c, nals));
    } else {
      SingleStep(c, s, done, nal, ptsUsec);
      RunMarked(c, s, nal, Payloads(c, rest), ptsUsec);
      AfterUnit(c, s, Taken(c, Synced(s, ptsUsec), nal), done + [nal], rest, ptsUsec,
                Run(c, s, Marked([nal] + Payloads(c, rest), ptsUsec)));
    }
  }

  lemma FragmentsCons(c: Codec, nal: Nal, off: nat, rest: seq<Nal>)
    requires c.HeaderSize() <= off < |nal|
    ensures var end := FragmentEnd(c, nal, off);
      var more := Fragments(c, nal, end) + Payloads(c, rest);
      && off < end <= |nal|
      && Fragments(c, nal, off) + Payloads(c, rest) == [Fragment(c, nal, off, end)] + more
      && (end == |nal| ==> more == Payloads(c, rest))
      && (more == [] <==> end == |nal| && rest == [])
  {
  }

  lemma {:induction false} FragmentTail(c: Codec, s: Depack, done: seq<Nal>, nal: Nal, off: nat, rest: seq<Nal>,
                                        ptsUsec: int, ps: seq<seq<byte>>)
    requires |nal| > SINGLE_MAX && c.HeaderSize() <= off < |nal| && Legal(c, [nal]) && Legal(c, rest)
    requires if off == c.HeaderSize() then InUnit(c, s, done, ptsUsec) else InFragment(c, s, done, nal, off, ptsUsec)
    requires ps == Fragments(c, nal, off) + Payloads(c, rest)
    ensures var r := Run(c, s, Marked(ps, ptsUsec));
      Closed(c, s, done + [nal] + rest, ptsUsec, r)
    decreases |rest|, 2, |nal| - off, 0
  {
    hide *;
    var end := FragmentEnd(c, nal, off);
    FragmentsCons(c, nal, off, rest);
    var p := Fragment(c, nal, off, end);
    var more := Fragments(c, nal, end) + Payloads(c, rest);
    var s1 := Taken(c, Synced(s, ptsUsec), p);
    FragmentStep(c, s, done, nal, off, ptsUsec);
    RunMarked(c, s, p, more, ptsUsec);
    var r := Run(c, s, Marked(ps, ptsUsec));
    if end == |nal| {
      AfterUnit(c, s, s1, done + [nal], rest, ptsUsec, r);
    } else {
      FragmentRest(c, s, s1, done, nal, end, rest, ptsUsec, more, r);
    }
  }

  lemma {:induction false} FragmentRest(c: Codec, s: Depack, s1: Depack, done: seq<Nal>, nal: Nal, end: nat,
                                        rest: seq<Nal>, ptsUsec: int, more: seq<seq<byte>>, r: (Depack, seq<Frame>))
    requires |nal| > SINGLE_MAX && c.HeaderSize() < end < |nal| && Legal(c, [nal]) && Legal(c, rest) && Legal(c, done)
    requires s.awaitingKeyframe ==> s1.awaitingKeyframe
    requires Lost(s1, ptsUsec) ||
      (InFragment(c, s1, done, nal, end, ptsUsec) && s1.awaitingKeyframe == s.awaitingKeyframe)
    requires Fits(done + [nal]) ==> !s1.damaged
    requires more == Fragments(c, nal, end) + Payloads(c, rest) && r == Run(c, s1, Marked(more, ptsUsec))
    ensures Closed(c, s, done + [nal] + rest, ptsUsec, r)
    decreases |rest|, 2, |nal| - end, 1
  {
    hide Run, Marked, Payloads, Fragments;
    assert nal in [nal];
    AnnexB4Grows(done + [nal], rest);
    if Lost(s1, ptsUsec) {
      LostTail(c, s1, more, ptsUsec);
    } else {
      FragmentTail(c, s1, done, nal, end, rest, ptsUsec, more);
    }
  }

  /** The packets of one unit, from a boundary to the next: whole, or lost and an IDR awaited. */
  lemma UnitRoundTrip(c: Codec, s: Depack, nals: seq<Nal>, ptsUsec: int)
    requires AtBoundary(s) && nals != [] && Legal(c, nals)
    ensures var r := Run(c, s, Marked(Payloads(c, nals), ptsUsec));
      Closed(c, s, nals, ptsUsec, r)
  {
    UnitTail(c, s, [], nals, ptsUsec);
    assert [] + nals == nals;
  }

  // ------------------------------------------------------------------ joining a unit half-way

  lemma {:induction false} MarkedDrop(ps: seq<seq<byte>>, ptsUsec: int, j: nat)
    requires j <= |ps|
    ensures Marked(ps, ptsUsec)[j..] == Marked(ps[j..], ptsUsec)
  {
    if j > 0 {
      MarkedDrop(ps[1..], ptsUsec, j - 1);
      assert Marked(ps, ptsUsec)[j..] == Marked(ps, ptsUsec)[1..][j - 1..];
      assert ps[j..] == ps[1..][j - 1..];
    } else {
      assert ps[0..] == ps;
    }
  }

  lemma {:induction false} FragmentAt(c: Codec, nal: Nal, off: nat, i: nat) returns (o: nat)
    requires |nal| > SINGLE_MAX && c.HeaderSize() <= off <= |nal| && i < |Fragments(c, nal, off)|
    ensures off <= o < |nal| && (i > 0 ==> off < o)
    ensures Fragments(c, nal, off)[i] == Fragment(c, nal, o, FragmentEnd(c, nal, o))
    decreases i
  {
    if i == 0 {
      o := off;
    } else {
      o := FragmentAt(c, nal, FragmentEnd(c, nal, off), i - 1);
    }
  }

  /** A fragment that does not start its unit, and none is open: the access unit is lost. */
  lemma StrayFragmentLoses(c: Codec, s: Depack, nal: Nal, o: nat, rest: seq<seq<byte>>, ptsUsec: int)
    requires AtBoundary(s) && |nal| > SINGLE_MAX && c.HeaderSize() < o < |nal|
    ensures var r := Run(c, s, Marked([Fragment(c, nal, o, FragmentEnd(c, nal, o))] + rest, ptsUsec));
      AtBoundary(r.0) && r.0.awaitingKeyframe && r.1 == []
  {
    hide Run, Marked, Fragment;
    var p := Fragment(c, nal, o, FragmentEnd(c, nal, o));
    FragmentShape(c, nal, o);
    RunMarked(c, s, p, rest, ptsUsec);
    var s1 := Taken(c, Synced(s, ptsUsec), p);
    assert Lost(s1, ptsUsec);
    if rest != [] {
      LostTail(c, s1, rest, ptsUsec);
    }
  }

  /** The packets of the k-th NAL unit, not the first, begin with payload j. */
  ghost predicate NalStart(c: Codec, nals: seq<Nal>, j: int, k: nat) {
    0 < k < |nals| && j == |Payloads(c, nals[..k])|
  }

  /** The same place, counted from the second unit on. */
  lemma NalStartRest(c: Codec, nals: seq<Nal>, j: int, k: nat)
    requires nals != [] && 0 < k
    ensures var n := |UnitPayloads(c, nals[0])|;
      NalStart(c, nals, j, k) <==> (k < |nals| && if k == 1 then j == n else NalStart(c, nals[1..], j - n, k - 1))
  {
    hide UnitPayloads;
    if k < |nals| {
      assert nals[..k][0] == nals[0] && nals[..k][1..] == nals[1..][..k - 1];
    }
  }

  /** Inside the first unit: nothing comes out. */
  lemma PartialFirst(c: Codec, s: Depack, nals: seq<Nal>, j: nat, ptsUsec: int)
    requires AtBoundary(s) && nals != [] && 0 < j < |UnitPayloads(c, nals[0])|
    ensures var r := Run(c, s, Marked(Payloads(c, nals)[j..], ptsUsec));
      AtBoundary(r.0) && r.0.awaitingKeyframe && r.1 == []
  {
    hide Run, Marked, Fragment, AtBoundary;
    var ps, more := UnitPayloads(c, nals[0]), Payloads(c, nals[1..]);
    assert Payloads(c, nals) == ps + more;
    hide Payloads;
    var o := FragmentAt(c, nals[0], c.HeaderSize(), j);
    assert (ps + more)[j..] == [ps[j]] + (ps[j + 1..] + more);
    StrayFragmentLoses(c, s, nals[0], o, ps[j + 1..] + more, ptsUsec);
  }

  /**
   The packets of an access unit from the j-th on, met at a boundary: if a NAL unit begins there, they
   fare as an access unit of the rest; if none does, nothing comes out and an IDR is awaited.
   */
  lemma {:induction false} PartialUnit(c: Codec, s: Depack, nals: seq<Nal>, j: nat, ptsUsec: int)
    returns (k: Option<nat>)
    requires AtBoundary(s) && Legal(c, nals) && 0 < j < |Payloads(c, nals)|
    ensures var r := Run(c, s, Marked(Payloads(c, nals)[j..], ptsUsec));
      match k
      case Some(i) => NalStart(c, nals, j, i) && Closed(c, s, nals[i..], ptsUsec, r)
      case None => (forall i: nat :: !NalStart(c, nals, j, i)) && AtBoundary(r.0) && r.0.awaitingKeyframe && r.1 == []
    decreases |nals|
  {
    hide Run, Marked, AtBoundary, Closed, UnitPayloads, NalStart;
    var rest := nals[1..];
    var ps, more := UnitPayloads(c, nals[0]), Payloads(c, rest);
    assert Payloads(c, nals) == ps + more && (rest == [] ==> more == []);
    if j < |ps| {
      k := None;
      PartialFirst(c, s, nals, j, ptsUsec);
      forall i: nat ensures !NalStart(c, nals, j, i) { NoStartInFirst(c, nals, j, i); }
    } else if j == |ps| {
      k := Some(1);
      NalStartRest(c, nals, j, 1);
      assert (ps + more)[j..] == more;
      UnitRoundTrip(c, s, rest, ptsUsec);
    } else {
      assert (ps + more)[j..] == more[j - |ps|..];
      k := PartialUnit(c, s, rest, j - |ps|, ptsUsec);
      if k.Some? {
        NalStartBounds(c, rest, j - |ps|, k.value);
        NalStartRest(c, nals, j, k.value + 1);
        assert rest[k.value..] == nals[k.value + 1..];
        k := Some(k.value + 1);
      } else {
        forall i: nat ensures !NalStart(c, nals, j, i) { NoStartInRest(c, nals, j, j - |ps|, i); }
      }
    }
  }

  lemma NoStartInFirst(c: Codec, nals: seq<Nal>, j: nat, i: nat)
    requires nals != [] && j < |UnitPayloads(c, nals[0])|
    ensures !NalStart(c, nals, j, i)
  {
    hide UnitPayloads;
    if 0 < i < |nals| {
      NalStartRest(c, nals, j, i);
    }
  }

  lemma NoStartInRest(c: Codec, nals: seq<Nal>, j: nat, rest: nat, i: nat)
    requires nals != [] && rest > 0 && j == rest + |UnitPayloads(c, nals[0])|
    requires forall k: nat :: !NalStart(c, nals[1..], rest, k)
    ensures !NalStart(c, nals, j, i)
  {
    if i > 0 {
      NalStartRest(c, nals, j, i);
      hide NalStart;
      assert i > 1 ==> !NalStart(c, nals[1..], rest, i - 1);
    }
  }

  lemma NalStartBounds(c: Codec, nals: seq<Nal>, j: int, k: nat)
    requires NalStart(c, nals, j, k)
    ensures 0 < k < |nals|
  {
  }

  /**
   A frame comes out of the packets from the j-th on only if a NAL unit begins there; it is then the
   units from that one on, and it does come out if they fit and may be shown.
   */
  lemma PartialFrameExactly(c: Codec, s: Depack, nals: seq<Nal>, j: nat, ptsUsec: int)
    requires AtBoundary(s) && Legal(c, nals) && 0 < j < |Payloads(c, nals)|
    ensures var fs := Run(c, s, Marked(Payloads(c, nals)[j..], ptsUsec)).1;
      && (fs != [] ==> exists k: nat :: NalStart(c, nals, j, k) && fs == [Whole(c, nals[k..], ptsUsec)])
      && (forall k: nat :: NalStart(c, nals, j, k) && Fits(nals[k..]) && (s.awaitingKeyframe ==> HasIdr(c, nals[k..]))
           ==> fs == [Whole(c, nals[k..], ptsUsec)])
  {
    hide Run, Marked, Payloads, Whole, Fits, HasIdr;
    var k := PartialUnit(c, s, nals, j, ptsUsec);
    if k.Some? {
      forall i: nat | NalStart(c, nals, j, i) ensures i == k.value { NalStartUnique(c, nals, j, i, k.value); }
    }
  }

  lemma {:induction false} NalStartUnique(c: Codec, nals: seq<Nal>, j: int, i: nat, k: nat)
    requires NalStart(c, nals, j, i) && NalStart(c, nals, j, k)
    ensures i == k
    decreases |nals|
  {
    NalStartRest(c, nals, j, i);
    NalStartRest(c, nals, j, k);
    if i > 1 && k > 1 {
      NalStartUnique(c, nals[1..], j - |UnitPayloads(c, nals[0])|, i - 1, k - 1);
    } else if i != k {
      NoEmptyUnits(c, nals[1..], 0, if i == 1 then k - 1 else i - 1);
    }
  }

  lemma NoEmptyUnits(c: Codec, nals: seq<Nal>, j: int, k: nat)
    requires j <= 0
    ensures !NalStart(c, nals, j, k)
  {
    if 0 < k < |nals| {
      assert nals[..k] != [];
    }
  }

  const VPS: Nal := [0x40, 1, 7]
  const IDR: Nal := [0x26, 1, 7]

  lemma TwoUnits()
    ensures Payloads(H265, [VPS, IDR]) == [VPS, IDR] && Legal(H265, [VPS, IDR]) && NalStart(H265, [VPS, IDR], 1, 1)
    ensures [VPS, IDR][1..] == [IDR] && HasIdr(H265, [IDR]) && HasIdr(H265, [VPS, IDR])
  {
    var nals := [VPS, IDR];
    assert nals[1..] == [IDR] && [IDR][1..] == [] && nals[..1] == [VPS] && [VPS][1..] == [];
    assert Payloads(H265, [IDR]) == [IDR] && Payloads(H265, [VPS]) == [VPS];
    assert IDR in [IDR] && IDR in nals;
  }

  lemma TwoUnitsFramed()
    ensures AnnexB4([IDR]) == [0, 0, 0, 1, 0x26, 1, 7]
    ensures AnnexB4([VPS, IDR]) == [0, 0, 0, 1, 0x40, 1, 7, 0, 0, 0, 1, 0x26, 1, 7]
  {
    assert [IDR][..0] == [] && [VPS][..0] == [] && [VPS, IDR][..1] == [VPS];
    assert AnnexB4([IDR]) == [] + [0, 0, 0, 1] + IDR;
    assert AnnexB4([VPS]) == [] + [0, 0, 0, 1] + VPS;
  }

  /** Joined after its first packet, an access unit of two NAL units comes out as the second alone. */
  lemma JoiningShowsASuffix(ptsUsec: int)
    ensures Run(H265, FRESH, Marked(Payloads(H265, [VPS, IDR])[1..], ptsUsec)).1
      == [Frame([0, 0, 0, 1, 0x26, 1, 7], ptsUsec, true)]
    ensures Whole(H265, [VPS, IDR], ptsUsec)
      == Frame([0, 0, 0, 1, 0x40, 1, 7, 0, 0, 0, 1, 0x26, 1, 7], ptsUsec, true)
  {
    TwoUnits();
    TwoUnitsFramed();
    hide Run, Marked, Payloads, Legal, NalStart, HasIdr, AnnexB4, VPS, IDR;
    PartialFrameExactly(H265, FRESH, [VPS, IDR], 1, ptsUsec);
  }

  lemma {:induction false} SuffixShorter(nals: seq<Nal>, k: nat)
    requires 0 < k <= |nals|
    ensures |AnnexB4(nals[k..])| < |AnnexB4(nals)|
    decreases |nals|
  {
    var m := |nals| - 1;
    if k <= m && m > 0 {
      SuffixShorter(nals[..m], k);
      assert nals[k..][..m - k] == nals[..m][k..];
    }
  }

  // ------------------------------------------------------------------ aggregation packets

  /** Units one after the other, each behind its length in 16 bits. */
  function Packed(nals: seq<Nal>): seq<byte>
    requires forall n :: n in nals ==> |n| < TWO16
  {
    if nals == [] then [] else BE16(|nals[0]|) + nals[0] + Packed(nals[1..])
  }

  /** The frame with these units in it too. */
  ghost function Joining(c: Codec, s: Depack, nals: seq<Nal>): Depack {
    s.(frame := s.frame + AnnexB4(nals), keyframe := s.keyframe || HasIdr(c, nals))
  }

  lemma {:induction false} AnnexB4Cons(n: Nal, rest: seq<Nal>)
    ensures AnnexB4([n] + rest) == [0, 0, 0, 1] + n + AnnexB4(rest)
    decreases |rest|
  {
    var all := [n] + rest;
    if rest == [] {
      assert all == [n] && all[..0] == [];
    } else {
      var m := |rest| - 1;
      AnnexB4Cons(n, rest[..m]);
      assert all[..m + 1] == [n] + rest[..m] && all[m + 1] == rest[m];
    }
  }

  lemma JoiningCons(c: Codec, s: Depack, n: Nal, rest: seq<Nal>)
    requires n != []
    ensures Joining(c, s, [n] + rest) == Joining(c, WithNal(c, s, n), rest)
    ensures |AnnexB4([n] + rest)| == |n| + 4 + |AnnexB4(rest)|
  {
    AnnexB4Cons(n, rest);
    assert s.frame + ([0, 0, 0, 1] + n + AnnexB4(rest)) == s.frame + [0, 0, 0, 1] + n + AnnexB4(rest);
    hide AnnexB4;
    var all := [n] + rest;
    assert n in all && forall x :: x in rest ==> x in all;
    assert forall x :: x in all ==> x == n || x in rest;
  }

  lemma ReadsLength(n: nat, rest: seq<byte>, p: seq<byte>, i: nat)
    requires n < TWO16 && i <= |p| && p[i..] == BE16(n) + rest
    ensures i + 2 <= |p| && Read16(p, i) == n && p[i + 2..] == rest
  {
    assert p[i] == p[i..][0] == n / 256 && p[i + 1] == p[i..][1] == n % 256;
    assert p[i + 2..] == p[i..][2..];
  }

  /** One unit is read, and the rest of the packet is left. */
  lemma AggregateStep(c: Codec, s: Depack, p: seq<byte>, i: nat, n: Nal, rest: seq<byte>)
    requires c.HeaderSize() <= |n| < TWO16 && i <= |p| && p[i..] == BE16(|n|) + (n + rest)
    requires |s.frame| + |n| + 4 <= MAX_FRAME_BYTES
    ensures i + 2 + |n| <= |p| && p[i + 2 + |n|..] == rest
    ensures WithAggregate(c, s, p, i) == WithAggregate(c, WithNal(c, s, n), p, i + 2 + |n|)
  {
    ReadsLength(|n|, n + rest, p, i);
    assert p[i + 2..][..|n|] == n && p[i + 2..][|n|..] == rest;
    assert p[i + 2..i + 2 + |n|] == n && p[i + 2 + |n|..] == rest;
    hide WithNal, BE16, Read16;
  }

  lemma PackedFirst(nals: seq<Nal>)
    requires nals != [] && forall n :: n in nals ==> |n| < TWO16
    ensures nals[0] in nals && [nals[0]] + nals[1..] == nals && (forall m :: m in nals[1..] ==> m in nals)
    ensures Packed(nals) == BE16(|nals[0]|) + (nals[0] + Packed(nals[1..]))
  {
    hide BE16;
  }

  lemma AggregateEnds(c: Codec, s: Depack, p: seq<byte>, i: nat)
    requires i <= |p| && p[i..] == Packed([])
    ensures WithAggregate(c, s, p, i) == Joining(c, s, [])
  {
    assert s.frame + [] == s.frame;
  }

  lemma {:induction false} AggregateTaken(c: Codec, s: Depack, p: seq<byte>, i: nat, nals: seq<Nal>)
    requires forall n :: n in nals ==> c.HeaderSize() <= |n| < TWO16
    requires i <= |p| && p[i..] == Packed(nals) && |s.frame| + |AnnexB4(nals)| <= MAX_FRAME_BYTES
    ensures WithAggregate(c, s, p, i) == Joining(c, s, nals)
    decreases |nals|
  {
    hide WithAggregate, Joining, AnnexB4, Packed, BE16;
    if nals == [] {
      AggregateEnds(c, s, p, i);
    } else {
      var n, rest := nals[0], nals[1..];
      PackedFirst(nals);
      JoiningCons(c, s, n, rest);
      AggregateStep(c, s, p, i, n, Packed(rest));
      AggregateTaken(c, WithNal(c, s, n), p, i + 2 + |n|, rest);
    }
  }

  /**
   An aggregation packet, met with no fragment open, counts as the units in it: if the frame has room, they
   join it in order. A packetizer other than the streamer's may send such.
   */
  lemma AggregatesCountAsTheirUnits(c: Codec, s: Depack, header: seq<byte>, nals: seq<Nal>)
    requires !s.damaged && !s.fuActive && (forall n :: n in nals ==> c.HeaderSize() <= |n| < TWO16)
    requires if c.H265? then |header| == 2 && header[0] / 2 % 64 == 48 else |header| == 1 && header[0] % 32 == 24
    requires |s.frame| + |AnnexB4(nals)| <= MAX_FRAME_BYTES
    requires |s.frame| + |header + Packed(nals)| + 4 <= MAX_FRAME_BYTES
    ensures Taken(c, s, header + Packed(nals)) ==
      s.(frame := s.frame + AnnexB4(nals), keyframe := s.keyframe || HasIdr(c, nals))
  {
    var p := header + Packed(nals);
    assert p[|header|..] == Packed(nals) && p[0] == header[0];
    AggregateTaken(c, s, p, |header|, nals);
    hide Packed, WithAggregate, WithFragment, AnnexB4, HasIdr;
  }
}
