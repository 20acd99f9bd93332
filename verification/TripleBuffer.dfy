/**
 Two ways of handing captured frames to the encoder: src/streamer/portal_pipewire_source.cpp swaps the
 published frame with the one on loan, src/streamer/mutter_virtual_source.cpp copies it. The format is
 negotiated once; allocation does not fail.
 */
module TripleBuffer {
  import opened Bytes

  type Image = seq<seq<byte>>

  /** Rows of `linesize` bytes, of which the first `visible` are picture. */
  datatype Shape = Shape(height: nat, linesize: nat, visible: nat)

  predicate Proper(sh: Shape) {
    0 < sh.visible <= sh.linesize && 0 < sh.height
  }

  predicate Fits(sh: Shape, img: Image) {
    |img| == sh.height && forall i :: 0 <= i < sh.height ==> |img[i]| == sh.linesize
  }

  /** A frame over `old`: of each row of the source as much as the line holds; the rest stays. */
  function Copied(sh: Shape, src: Image, before: Image): (r: Image)
    requires Fits(sh, before) && |src| == sh.height
    ensures Fits(sh, r)
  {
    seq(sh.height, i requires 0 <= i < sh.height =>
      var n := Min(|src[i]|, sh.linesize); src[i][..n] + before[i][n..])
  }

  /** What can be seen of an image. */
  function Seen(sh: Shape, img: Image): Image
    requires Proper(sh) && Fits(sh, img)
  {
    seq(sh.height, i requires 0 <= i < sh.height => img[i][..sh.visible])
  }

  /** What a pull returns: the code and, with 1, the picture and its time. */
  datatype Outcome = Outcome(code: int, picture: Image, ptsUsec: int)

  const ENDED := Outcome(-1, [], 0)
  const NOTHING := Outcome(0, [], 0)

  /** `spare` is the memory that the third frame will be allocated in, whatever it holds. */
  datatype Source = Source(front: Image, back: Image, out: Option<Image>, spare: Image, ptsUsec: int,
                           haveNew: bool, running: bool)

  predicate Formed(sh: Shape, s: Source) {
    Proper(sh) && Fits(sh, s.front) && Fits(sh, s.back) && Fits(sh, s.spare) && (s.out.Some? ==> Fits(sh, s.out.value))
  }

  function Captured(sh: Shape, s: Source, src: Image, now: int): Source
    requires Formed(sh, s) && |src| == sh.height
  {
    s.(front := Copied(sh, src, s.back), back := s.front, ptsUsec := now, haveNew := true)
  }

  function Rotated(sh: Shape, s: Source): (Source, Outcome)
    requires Formed(sh, s)
  {
    if !s.running then (s, ENDED)
    else if !s.haveNew then (s, NOTHING)
    else
      (s.(haveNew := false, front := if s.out.Some? then s.out.value else s.spare, out := Some(s.front)),
       Outcome(1, Seen(sh, s.front), s.ptsUsec))
  }

  function Duplicated(sh: Shape, s: Source): (Source, Outcome)
    requires Formed(sh, s)
  {
    if !s.running then (s, ENDED)
    else if !s.haveNew then (s, NOTHING)
    else (s.(haveNew := false, out := Some(s.front)), Outcome(1, Seen(sh, s.front), s.ptsUsec))
  }

  // ------------------------------------------------------------------------ the sources

  class AvFrame {
    var rows: Image

    constructor (rows: Image)
      ensures this.rows == rows
    {
      this.rows := rows;
    }
  }

  /** What both sources keep; they differ in how a frame is pulled. */
  class FrameSource {
    const shape: Shape
    const spare: Image
    var front: AvFrame
    var back: AvFrame
    var out: AvFrame?
    var ptsUsec: int
    var haveNew: bool
    var running: bool

    ghost predicate Valid()
      reads this, front, back, out
    {
      front != back && front != out && back != out && Formed(shape, State())
    }

    ghost function State(): Source
      reads this, front, back, out
    {
      Source(front.rows, back.rows, if out == null then None else Some(out.rows), spare, ptsUsec, haveNew, running)
    }

    constructor (shape: Shape, first: Image, second: Image, spare: Image)
      requires Proper(shape) && Fits(shape, first) && Fits(shape, second) && Fits(shape, spare)
      ensures Valid() && this.shape == shape && State() == Source(first, second, None, spare, 0, false, true)
      ensures fresh(front) && fresh(back)
    {
      this.shape := shape;
      this.spare := spare;
      front := new AvFrame(first);
      back := new AvFrame(second);
      out := null;
      ptsUsec, haveNew, running := 0, false, true;
    }

    /** The frame on loan is not written, nor exchanged. */
    method OnProcess(src: Image, now: int)
      requires Valid() && |src| == shape.height
      modifies this, back
      ensures Valid() && State() == Captured(shape, old(State()), src, now)
      ensures out == old(out) && (out != null ==> out.rows == old(out.rows))
      ensures {front, back} == {old(front), old(back)}
    {
      back.rows := Copied(shape, src, back.rows);
      ptsUsec := now;
      front, back := back, front;
      haveNew := true;
    }

    /** latest_frame of the portal source: no pixel is written; the frame loaned is the one last captured. */
    method RotateFrame() returns (outcome: Outcome, frame: AvFrame?)
      requires Valid()
      modifies this
      ensures Valid() && (State(), outcome) == Rotated(shape, old(State()))
      ensures outcome.code == 1 <==> frame != null
      ensures frame != null ==> frame == out == old(front) && Seen(shape, frame.rows) == outcome.picture
      ensures old(out) == null || {front, back, out} == {old(front), old(back), old(out)}
      ensures old(out) == null ==> front == old(front) || fresh(front)
    {
      if !running { return ENDED, null; }
      if !haveNew { return NOTHING, null; }
      haveNew := false;
      if out == null {
        out := new AvFrame(spare);
      }
      out, front := front, out;
      frame := out;
      outcome := Outcome(1, Seen(shape, out.rows), ptsUsec);
    }

    /** latest_frame of the Mutter source: only the frame on loan is written. */
    method CopyFrame() returns (outcome: Outcome, frame: AvFrame?)
      requires Valid()
      modifies this, out
      ensures Valid() && (State(), outcome) == Duplicated(shape, old(State()))
      ensures outcome.code == 1 <==> frame != null
      ensures frame != null ==> frame == out && Seen(shape, frame.rows) == outcome.picture
      ensures front == old(front) && back == old(back)
    {
      if !running { return ENDED, null; }
      if !haveNew { return NOTHING, null; }
      haveNew := false;
      if out == null {
        out := new AvFrame(spare);
      }
      out.rows := front.rows;
      frame := out;
      outcome := Outcome(1, Seen(shape, out.rows), ptsUsec);
    }
  }

  // ------------------------------------------------------------------------ whole runs

  datatype Event = Capture(src: Image, now: int) | Pull | Stop

  predicate Meant(sh: Shape, es: seq<Event>) {
    forall e :: e in es && e.Capture? ==> |e.src| == sh.height
  }

  /** What the consumer of a source sees of a run, and where the source ends up. */
  function Run(sh: Shape, s: Source, rotating: bool, es: seq<Event>): (r: (Source, seq<Outcome>))
    requires Formed(sh, s) && Meant(sh, es)
    ensures Formed(sh, r.0)
  {
    if es == [] then (s, [])
    else
      assert Meant(sh, es[..|es| - 1]) && es[|es| - 1] in es;
      var (s1, os) := Run(sh, s, rotating, es[..|es| - 1]);
      match es[|es| - 1]
      case Capture(src, now) => (Captured(sh, s1, src, now), os)
      case Stop => (s1.(running := false), os)
      case Pull =>
        var (s2, o) := if rotating then Rotated(sh, s1) else Duplicated(sh, s1);
        (s2, os + [o])
  }

  /** Every row of every capture is k bytes long. */
  predicate Strided(sh: Shape, es: seq<Event>, k: nat) {
    forall e :: e in es && e.Capture? ==> |e.src| == sh.height && forall i :: 0 <= i < sh.height ==> |e.src[i]| == k
  }

  /** The sources agree on all that can still be seen. */
  predicate Alike(sh: Shape, a: Source, b: Source)
    requires Formed(sh, a) && Formed(sh, b)
  {
    && a.ptsUsec == b.ptsUsec && a.haveNew == b.haveNew && a.running == b.running
    && (a.haveNew ==> Seen(sh, a.front) == Seen(sh, b.front))
  }

  /** A capture that covers the visible part leaves nothing of the old frame to be seen. */
  lemma CoveredSeen(sh: Shape, src: Image, x: Image, y: Image)
    requires Proper(sh) && Fits(sh, x) && Fits(sh, y) && |src| == sh.height
    requires forall i :: 0 <= i < sh.height ==> |src[i]| >= sh.visible
    ensures Seen(sh, Copied(sh, src, x)) == Seen(sh, Copied(sh, src, y))
  {
    forall i | 0 <= i < sh.height
      ensures Copied(sh, src, x)[i][..sh.visible] == Copied(sh, src, y)[i][..sh.visible]
    {
    }
  }

  lemma {:induction false} RotatingIsCopying(sh: Shape, s: Source, es: seq<Event>, k: nat)
    requires Formed(sh, s) && Meant(sh, es) && Strided(sh, es, k) && k >= sh.visible
    ensures Run(sh, s, true, es).1 == Run(sh, s, false, es).1
    ensures Alike(sh, Run(sh, s, true, es).0, Run(sh, s, false, es).0)
  {
    if es != [] {
      var before, e := es[..|es| - 1], es[|es| - 1];
      assert e in es;
      RotatingIsCopying(sh, s, before, k);
      if e.Capture? {
        CoveredSeen(sh, e.src, Run(sh, s, true, before).0.back, Run(sh, s, false, before).0.back);
      }
    }
  }

  lemma RunSnoc(sh: Shape, s: Source, rotating: bool, es: seq<Event>, e: Event)
    requires Formed(sh, s) && Meant(sh, es) && (e.Capture? ==> |e.src| == sh.height)
    ensures Meant(sh, es + [e])
    ensures var (s1, os) := Run(sh, s, rotating, es);
      Run(sh, s, rotating, es + [e]) ==
        match e
        case Capture(src, now) => (Captured(sh, s1, src, now), os)
        case Stop => (s1.(running := false), os)
        case Pull => var (s2, o) := if rotating then Rotated(sh, s1) else Duplicated(sh, s1); (s2, os + [o])
  {
    assert (es + [e])[..|es|] == es;
  }

  /** Two frames over zeros, the third over ones; captures of rows of k twos. */
  function Stale(sh: Shape): Source {
    Source(Plain(sh.height, sh.linesize, 0), Plain(sh.height, sh.linesize, 0), None,
           Plain(sh.height, sh.linesize, 1), 0, false, true)
  }

  function TwosOf(sh: Shape, k: nat): Event { Capture(Plain(sh.height, k, 2), 0) }

  function Plain(h: nat, w: nat, b: byte): (img: Image)
    ensures |img| == h && forall i :: 0 <= i < h ==> |img[i]| == w
  {
    seq(h, i => seq(w, j => b))
  }

  predicate EndsIn(sh: Shape, img: Image, b: byte)
    requires Proper(sh) && Fits(sh, img)
  {
    img[0][sh.visible - 1] == b
  }

  /** Narrow captures leave the last visible byte as it was. */
  lemma NarrowKeeps(sh: Shape, k: nat, before: Image, b: byte)
    requires Proper(sh) && k < sh.visible && Fits(sh, before) && EndsIn(sh, before, b)
    ensures EndsIn(sh, Copied(sh, TwosOf(sh, k).src, before), b)
  {
  }

  lemma PlainEnds(sh: Shape)
    requires Proper(sh)
    ensures Formed(sh, Stale(sh))
    ensures EndsIn(sh, Stale(sh).back, 0) && EndsIn(sh, Stale(sh).spare, 1)
  {
  }

  function NarrowEvents(sh: Shape, k: nat): seq<Event> {
    [TwosOf(sh, k)] + [Pull] + [TwosOf(sh, k)] + [TwosOf(sh, k)] + [Pull]
  }

  /** The second frame pulled ends, in its first row, in what its memory held at first. */
  lemma NarrowRun(sh: Shape, k: nat, rotating: bool)
    requires Proper(sh) && k < sh.visible
    ensures Formed(sh, Stale(sh)) && Meant(sh, NarrowEvents(sh, k)) && Strided(sh, NarrowEvents(sh, k), k)
    ensures var os := Run(sh, Stale(sh), rotating, NarrowEvents(sh, k)).1;
      |os| == 2 && |os[1].picture| > 0 && |os[1].picture[0]| == sh.visible
      && os[1].picture[0][sh.visible - 1] == if rotating then 1 else 0
  {
    hide Copied, Plain, Run, Fits;
    var c, s := TwosOf(sh, k), Stale(sh);
    PlainEnds(sh);
    assert Run(sh, s, rotating, []) == (s, []) by { RunNone(sh, s, rotating); }
    RunSnoc(sh, s, rotating, [], c);
    assert [] + [c] == [c];
    RunSnoc(sh, s, rotating, [c], Pull);
    RunSnoc(sh, s, rotating, [c] + [Pull], c);
    RunSnoc(sh, s, rotating, [c] + [Pull] + [c], c);
    RunSnoc(sh, s, rotating, [c] + [Pull] + [c] + [c], Pull);
    NarrowKeeps(sh, k, s.back, 0);
    var front := Copied(sh, c.src, s.back);
    NarrowKeeps(sh, k, front, 0);
    NarrowKeeps(sh, k, s.spare, 1);
    var last := Copied(sh, c.src, if rotating then s.spare else front);
    assert Run(sh, s, rotating, NarrowEvents(sh, k)).1[1].picture == Seen(sh, last);
    SeenEnds(sh, last, if rotating then 1 else 0);
  }

  lemma SeenEnds(sh: Shape, img: Image, b: byte)
    requires Proper(sh) && Fits(sh, img) && EndsIn(sh, img, b)
    ensures |Seen(sh, img)| > 0 && |Seen(sh, img)[0]| == sh.visible && Seen(sh, img)[0][sh.visible - 1] == b
  {
  }

  lemma RunNone(sh: Shape, s: Source, rotating: bool)
    requires Formed(sh, s)
    ensures Run(sh, s, rotating, []) == (s, [])
  {
  }

  /** Same codes, same pictures, same times, pull by pull. */
  predicate SameOutcomes(sh: Shape, s: Source, es: seq<Event>)
    requires Formed(sh, s) && Meant(sh, es)
  {
    Run(sh, s, true, es).1 == Run(sh, s, false, es).1
  }

  /**
   The rotating source cannot be told from the copying one, over any run of captures whose rows are k
   bytes long and whatever the frames were allocated over, if and only if k covers the picture.
   */
  lemma RotatingRefinesCopying(sh: Shape, k: nat)
    requires Proper(sh)
    ensures (forall s, es :: Formed(sh, s) && Meant(sh, es) && Strided(sh, es, k) ==> SameOutcomes(sh, s, es))
      <==> k >= sh.visible
  {
    if k >= sh.visible {
      forall s, es | Formed(sh, s) && Meant(sh, es) && Strided(sh, es, k)
        ensures SameOutcomes(sh, s, es)
      {
        RotatingIsCopying(sh, s, es, k);
      }
    } else {
      hide NarrowEvents, Stale;
      NarrowRun(sh, k, true);
      NarrowRun(sh, k, false);
      assert !SameOutcomes(sh, Stale(sh), NarrowEvents(sh, k));
    }
  }

  // ------------------------------------------------------------------ what a pull shows

  predicate Ended(es: seq<Event>) {
    exists i :: 0 <= i < |es| && es[i].Stop?
  }

  /** The last capture that no pull has shown yet. */
  function Unseen(es: seq<Event>): Option<(Image, int)> {
    if es == [] then None
    else
      var before, e := es[..|es| - 1], es[|es| - 1];
      match e
      case Capture(src, now) => Some((src, now))
      case Stop => Unseen(before)
      case Pull => if Ended(before) then Unseen(before) else None
  }

  /** As much of each row as can be seen. */
  function Cut(sh: Shape, src: Image): Image
    requires Proper(sh)
  {
    seq(|src|, i requires 0 <= i < |src| => src[i][..Min(sh.visible, |src[i]|)])
  }

  /** The source holds what the events leave unseen. */
  ghost predicate Holds(sh: Shape, s: Source, es: seq<Event>)
    requires Formed(sh, s)
  {
    && (s.running <==> !Ended(es))
    && (s.haveNew <==> Unseen(es).Some?)
    && (s.haveNew ==>
      var (src, now) := Unseen(es).value;
      Seen(sh, s.front) == Cut(sh, src) && s.ptsUsec == now)
  }

  lemma CapturedSeen(sh: Shape, src: Image, x: Image)
    requires Proper(sh) && Fits(sh, x) && |src| == sh.height
    requires forall i :: 0 <= i < sh.height ==> |src[i]| >= sh.visible
    ensures Seen(sh, Copied(sh, src, x)) == Cut(sh, src)
  {
    forall i | 0 <= i < sh.height
      ensures Copied(sh, src, x)[i][..sh.visible] == src[i][..sh.visible]
    {
    }
  }

  lemma {:induction false} RunHolds(sh: Shape, s: Source, rotating: bool, es: seq<Event>, k: nat)
    requires Formed(sh, s) && Meant(sh, es) && Strided(sh, es, k) && k >= sh.visible
    requires s.running && !s.haveNew
    ensures Holds(sh, Run(sh, s, rotating, es).0, es)
  {
    if es != [] {
      var before, e := es[..|es| - 1], es[|es| - 1];
      assert e in es;
      RunHolds(sh, s, rotating, before, k);
      assert Ended(es) <==> Ended(before) || e.Stop? by {
        if i :| 0 <= i < |es| && es[i].Stop? { assert i < |before| ==> before[i].Stop?; }
        if i :| 0 <= i < |before| && before[i].Stop? { assert es[i].Stop?; }
        if e.Stop? { assert es[|es| - 1].Stop?; }
      }
      hide Ended;
      if e.Capture? {
        CapturedSeen(sh, e.src, Run(sh, s, rotating, before).0.back);
      }
    }
  }

  /**
   On every run of either kind, with rows that cover the picture: a pull shows the last capture, as much
   of its rows as can be seen, with the time it was made, unless that has been shown or the source stopped.
   */
  lemma PullsShowTheLastCapture(sh: Shape, s: Source, rotating: bool, es: seq<Event>, k: nat)
    requires Formed(sh, s) && Meant(sh, es) && Strided(sh, es, k) && k >= sh.visible
    requires s.running && !s.haveNew
    ensures Meant(sh, es + [Pull])
    ensures var os := Run(sh, s, rotating, es).1;
      Run(sh, s, rotating, es + [Pull]).1 == os + [
        if Ended(es) then Outcome(-1, [], 0)
        else match Unseen(es)
          case None => Outcome(0, [], 0)
          case Some((src, now)) => Outcome(1, Cut(sh, src), now)]
  {
    RunHolds(sh, s, rotating, es, k);
    RunSnoc(sh, s, rotating, es, Pull);
  }
}
