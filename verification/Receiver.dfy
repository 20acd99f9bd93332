/**
 The client's receive loop (RtpReceiver.java, loop): unwrapping, reordering through the jitter
 buffer, gap handling, and the choice of what to NACK.

 Recv is the loop's state as a value, with the trace of what the depacketizer was told; the class
 at the end carries it in fields. One iteration of the loop is a drain followed by at most one
 datagram. Clock readings are arbitrary.
 */
module Receiver {
  import opened Bytes
  import opened Rtp
  import opened Packetizer
  import opened Depacketizer

  const JITTER_MAX: nat := 512
  const REPAIR_BUDGET_MS: int := 30
  const NACK_MAX_GAP: int := 256

  /** One video packet, as far as the loop looks into it. */
  datatype Video = Video(payload: seq<byte>, marker: bool, ts: int)

  datatype Held = Held(video: Video, receivedMs: int)

  /** What the depacketizer is told: onGap, or feed of a packet with this extended number. */
  datatype Action = Skipped | Handed(ext: int)

  datatype Recv = Recv(
    jitter: map<int, Held>, next: int, highest: int,
    depack: Depack, frames: seq<Frame>, trace: seq<Action>)

  const START := Recv(map[], -1, -1, FRESH, [], [])

  function PtsUsec(ts: int): int {
    ts * 1_000_000 / VIDEO_CLOCK_RATE
  }

  function EventOf(v: Video): Event {
    Event.Packet(v.payload, v.marker, PtsUsec(v.ts))
  }

  function Delivered(c: Codec, s: Recv, ext: int, v: Video): Recv {
    var (d, f) := Step(c, s.depack, EventOf(v));
    s.(next := ext + 1, depack := d, frames := s.frames + ToSeq(f), trace := s.trace + [Handed(ext)])
  }

  // ------------------------------------------------------------------ draining

  ghost predicate IsHead(m: map<int, Held>, k: int) {
    k in m && forall j :: j in m ==> k <= j
  }

  lemma {:induction false} LeastExists(some: set<int>)
    requires some != {}
    ensures exists k :: k in some && forall j :: j in some ==> k <= j
    decreases some
  {
    assert (forall x :: x !in some) ==> some == {};
    var x :| x in some;
    var rest := some - {x};
    if rest == {} {
      assert some == {x};
    } else {
      LeastExists(rest);
      var y :| y in rest && forall j :: j in rest ==> y <= j;
      var k := Min(x, y);
      assert forall j :: j in some ==> j == x || j in rest;
      assert k in some && forall j :: j in some ==> k <= j;
    }
  }

  /** TreeMap.firstEntry. */
  ghost function Head(m: map<int, Held>): (k: int)
    requires m != map[]
    ensures IsHead(m, k)
  {
    assert m.Keys != {};
    LeastExists(m.Keys);
    assert exists k :: IsHead(m, k) by {
      var k :| k in m.Keys && forall j :: j in m.Keys ==> k <= j;
      assert IsHead(m, k);
    }
    var k :| IsHead(m, k);
    k
  }

  predicate Due(s: Recv, k: int, now: int)
    requires k in s.jitter
  {
    s.next < 0 || k == s.next || |s.jitter| > JITTER_MAX || now - s.jitter[k].receivedMs >= REPAIR_BUDGET_MS
  }

  function Popped(c: Codec, s: Recv, k: int): Recv
    requires k in s.jitter
  {
    var rest := s.(jitter := s.jitter - {k});
    var told := if s.next >= 0 && k != s.next
                then rest.(depack := Gapped(s.depack), trace := s.trace + [Skipped])
                else rest;
    Delivered(c, told, k, s.jitter[k].video)
  }

  /** clock(i) is the reading of the i-th round. */
  ghost function Drained(c: Codec, s: Recv, clock: int -> int, i: int): Recv
    decreases |s.jitter|
  {
    if s.jitter == map[] || !Due(s, Head(s.jitter), clock(i)) then s
    else
      PopShrinks(c, s, Head(s.jitter));
      Drained(c, Popped(c, s, Head(s.jitter)), clock, i + 1)
  }

  lemma PopShrinks(c: Codec, s: Recv, k: int)
    requires k in s.jitter
    ensures |Popped(c, s, k).jitter| == |s.jitter| - 1
  {
    var m := s.jitter - {k};
    assert m.Keys == s.jitter.Keys - {k};
    assert |m| == |m.Keys| && |s.jitter| == |s.jitter.Keys|;
  }

  // ------------------------------------------------------------------ arriving

  /** The narrowing cast to a 16-bit signed integer. */
  function Signed16(x: int): (r: int)
    ensures -0x8000 <= r < 0x8000
    ensures (r - x) % TWO16 == 0
  {
    (x + 0x8000) % TWO16 - 0x8000
  }

  /** The extended number closest to the highest seen. */
  function Unwrap(highest: int, seqNo: int): int {
    if highest < 0 then seqNo else highest + Signed16(seqNo - highest % TWO16)
  }

  function Placed(c: Codec, s: Recv, ext: int, v: Video, now: int): Recv {
    var s1 := s.(highest := if ext > s.highest then ext else s.highest);
    if s.next >= 0 && ext < s.next then s1
    else if s.next < 0 || ext == s.next then Delivered(c, s1, ext, v)
    else if ext !in s.jitter then s1.(jitter := s.jitter[ext := Held(v, now)])
    else s1
  }

  /** The numbers a new packet reveals to be missing, as [first, after), when worth a NACK. */
  function Missing(s: Recv, ext: int): Option<(int, int)> {
    if s.highest >= 0 && ext > s.highest + 1 && ext - s.highest - 1 <= NACK_MAX_GAP
    then Some((s.highest + 1, ext)) else None
  }

  datatype Stream = Stream(ssrc: int, payloadType: int)

  /** The video packet in a datagram, if it carries one of this stream. */
  function VideoIn(st: Stream, data: seq<byte>): Option<Datagram> {
    match Parse(data)
    case None => None
    case Some(d) => if d.ssrc == st.ssrc && d.payloadType == st.payloadType then Some(d) else None
  }

  function Received(c: Codec, st: Stream, s: Recv, data: seq<byte>, now: int): Recv {
    match VideoIn(st, data)
    case None => s
    case Some(d) => Placed(c, s, Unwrap(s.highest, d.seqNo), Video(d.payload, d.marker, d.ts), now)
  }

  /** The range NACKed when a datagram arrives. */
  function RangeOf(st: Stream, s: Recv, data: seq<byte>): Option<(int, int)> {
    match VideoIn(st, data)
    case None => None
    case Some(d) => Missing(s, Unwrap(s.highest, d.seqNo))
  }

  // ------------------------------------------------------------------ whole runs

  /** One iteration of the loop: the drain's clock, then a datagram or a timeout. */
  datatype Turn = Turn(clock: int -> int, data: Option<seq<byte>>, now: int)

  ghost function TurnDone(c: Codec, st: Stream, s: Recv, t: Turn): Recv {
    var s1 := Drained(c, s, t.clock, 0);
    if t.data.None? then s1 else Received(c, st, s1, t.data.value, t.now)
  }

  ghost function Looped(c: Codec, st: Stream, s: Recv, ts: seq<Turn>): Recv
    decreases |ts|
  {
    if ts == [] then s else Looped(c, st, TurnDone(c, st, s, ts[0]), ts[1..])
  }

  // ------------------------------------------------------------------ any datagrams at all

  /** Numbers handed over strictly increase, and a skip is announced exactly where one is skipped. */
  ghost predicate Orderly(trace: seq<Action>)
    decreases |trace|
  {
    var n := |trace|;
    n == 0 || (
      && trace[n - 1].Handed?
      && (n == 1 ||
          match trace[n - 2]
          case Handed(k) => trace[n - 1].ext == k + 1 && Orderly(trace[..n - 1])
          case Skipped => n >= 3 && trace[n - 3].Handed? && trace[n - 1].ext > trace[n - 3].ext + 1
                          && Orderly(trace[..n - 2])))
  }

  /** Before a drain; `lag` is 1 once the drain is over. */
  ghost predicate LoopInv(s: Recv, lag: int) {
    && (s.next < 0 ==> s == START)
    && (s.next >= 0 ==> s.trace != [] && s.trace[|s.trace| - 1] == Handed(s.next - 1))
    && Orderly(s.trace)
    && s.next - 1 <= s.highest
    && (forall k :: k in s.jitter ==> s.next + lag <= k <= s.highest)
    && |s.jitter| <= JITTER_MAX + 1 - lag
  }

  lemma TraceGrows(trace: seq<Action>, k: int, ext: int)
    requires Orderly(trace) && trace != [] && trace[|trace| - 1] == Handed(k) && k < ext
    ensures Orderly(trace + (if ext == k + 1 then [Handed(ext)] else [Skipped, Handed(ext)]))
  {
    var t := trace + [Handed(ext)];
    assert t[..|trace|] == trace;
    var g := trace + [Skipped, Handed(ext)];
    assert g[..|trace|] == trace;
  }

  lemma PopKeeps(c: Codec, s: Recv)
    requires LoopInv(s, 0) && s.jitter != map[]
    ensures LoopInv(Popped(c, s, Head(s.jitter)), 0)
  {
    hide Step;
    var k := Head(s.jitter);
    TraceGrows(s.trace, s.next - 1, k);
    PopShrinks(c, s, k);
    assert s.trace + [Skipped] + [Handed(k)] == s.trace + [Skipped, Handed(k)];
  }

  lemma {:induction false} DrainKeeps(c: Codec, s: Recv, clock: int -> int, i: int)
    requires LoopInv(s, 0)
    ensures LoopInv(Drained(c, s, clock, i), 1)
    decreases |s.jitter|
  {
    if s.jitter != map[] && Due(s, Head(s.jitter), clock(i)) {
      PopKeeps(c, s);
      PopShrinks(c, s, Head(s.jitter));
      DrainKeeps(c, Popped(c, s, Head(s.jitter)), clock, i + 1);
    } else if s.jitter != map[] {
      assert forall k :: k in s.jitter ==> Head(s.jitter) <= k;
    }
  }

  lemma PlaceFirst(c: Codec, ext: int, v: Video)
    requires ext >= 0
    ensures LoopInv(Delivered(c, START.(highest := ext), ext, v), 0)
  {
    hide Step;
    var t := [Handed(ext)];
    assert [] + t == t && t[|t| - 1] == Handed(ext) && Orderly(t);
  }

  lemma PlaceNext(c: Codec, s: Recv, highest: int, v: Video)
    requires LoopInv(s, 1) && s.next >= 0 && highest >= s.highest && highest >= s.next
    ensures LoopInv(Delivered(c, s.(highest := highest), s.next, v), 0)
  {
    hide Step;
    TraceGrows(s.trace, s.next - 1, s.next);
  }

  lemma PlaceHeld(s: Recv, ext: int, h: Held, highest: int)
    requires LoopInv(s, 1) && s.next >= 0 && ext > s.next && ext !in s.jitter && highest >= s.highest && highest >= ext
    ensures LoopInv(s.(highest := highest, jitter := s.jitter[ext := h]), 0)
  {
    hide Orderly;
    var m := s.jitter[ext := h];
    assert m.Keys == s.jitter.Keys + {ext};
    assert |m| == |m.Keys| && |s.jitter| == |s.jitter.Keys|;
  }

  lemma PlaceKeeps(c: Codec, s: Recv, ext: int, v: Video, now: int)
    requires LoopInv(s, 1) && (s.next < 0 ==> ext >= 0)
    ensures LoopInv(Placed(c, s, ext, v, now), 0)
  {
    hide Step, Orderly;
    var highest := if ext > s.highest then ext else s.highest;
    if s.next < 0 {
      hide Delivered;
      PlaceFirst(c, ext, v);
    } else if ext == s.next {
      hide Delivered;
      PlaceNext(c, s, highest, v);
    } else if ext > s.next && ext !in s.jitter {
      PlaceHeld(s, ext, Held(v, now), highest);
    }
  }

  /** Whatever arrives, and whatever the clock says, every iteration keeps the loop's invariant. */
  lemma {:induction false} LoopKeeps(c: Codec, st: Stream, s: Recv, ts: seq<Turn>)
    requires LoopInv(s, 0)
    ensures LoopInv(Looped(c, st, s, ts), 0)
    decreases |ts|
  {
    if ts != [] {
      var t := ts[0];
      DrainKeeps(c, s, t.clock, 0);
      var s1 := Drained(c, s, t.clock, 0);
      if t.data.Some? && VideoIn(st, t.data.value).Some? {
        var d := VideoIn(st, t.data.value).value;
        PlaceKeeps(c, s1, Unwrap(s1.highest, d.seqNo), Video(d.payload, d.marker, d.ts), t.now);
      }
      LoopKeeps(c, st, TurnDone(c, st, s, t), ts[1..]);
    }
  }

  /** An arrival whose true number lies in the window around the highest seen is numbered truly. */
  lemma UnwrapRecovers(highest: int, true': int)
    requires highest >= 0 && -0x8000 <= true' - highest < 0x8000
    ensures Unwrap(highest, true' % TWO16) == true'
  {
    var x := true' % TWO16 - highest % TWO16;
    assert (x - (true' - highest)) % TWO16 == 0;
    assert (Signed16(x) - (true' - highest)) % TWO16 == 0;
  }

  /** Outside the window it never is: the bound is exact. */
  lemma UnwrapWindowIsExact(highest: int, true': int)
    requires highest >= 0
    ensures Unwrap(highest, true' % TWO16) == true' <==> -0x8000 <= true' - highest < 0x8000
  {
    if -0x8000 <= true' - highest < 0x8000 {
      UnwrapRecovers(highest, true');
    }
  }

  // ------------------------------------------------------------------ the object

  class RtpReceiver {
    const stream: Stream
    const depack: VideoDepacketizer
    var jitter: map<int, Held>
    var nextExtSeq: int
    var highestExtSeq: int
    ghost var frames: seq<Frame>
    ghost var trace: seq<Action>

    ghost function State(): Recv
      reads this, depack
    {
      Recv(jitter, nextExtSeq, highestExtSeq, depack.State(), frames, trace)
    }

    constructor (codec: Codec, stream: Stream)
      ensures State() == START && depack.codec == codec && this.stream == stream && fresh(depack)
    {
      this.stream := stream;
      depack := new VideoDepacketizer(codec);
      jitter, nextExtSeq, highestExtSeq := map[], -1, -1;
      frames, trace := [], [];
    }

    method FirstKey() returns (k: int)
      requires jitter != map[]
      ensures k == Head(jitter)
    {
      ghost var head := Head(jitter);
      k :| k in jitter && forall j :: j in jitter ==> k <= j;
    }

    /** One packet to the depacketizer; returns what its sink receives. */
    method Deliver(ext: int, video: Video) returns (sink: Option<Frame>)
      modifies this, depack
      ensures State() == Delivered(depack.codec, old(State()), ext, video)
      ensures frames == old(frames) + ToSeq(sink)
    {
      nextExtSeq := ext + 1;
      sink := depack.Feed(video.payload, video.marker, PtsUsec(video.ts));
      frames := frames + ToSeq(sink);
      trace := trace + [Handed(ext)];
    }

    /** Removes an entry and hands it over, after announcing the gap before it. */
    method Pop(s: int) returns (sink: Option<Frame>)
      requires s in jitter
      modifies this, depack
      ensures State() == Popped(depack.codec, old(State()), s)
      ensures frames == old(frames) + ToSeq(sink)
    {
      var held := jitter[s];
      jitter := jitter - {s};
      if nextExtSeq >= 0 && s != nextExtSeq {
        depack.OnGap();
        trace := trace + [Skipped];
      }
      sink := Deliver(s, held.video);
    }

    /** The inner loop: everything that is due leaves the jitter buffer, lowest number first. */
    method DrainJitter(clock: int -> int) returns (sink: seq<Frame>)
      modifies this, depack
      ensures State() == Drained(depack.codec, old(State()), clock, 0)
      ensures frames == old(frames) + sink
    {
      hide Popped;
      sink := [];
      var i := 0;
      ghost var result := Drained(depack.codec, State(), clock, 0);
      while jitter != map[]
        invariant result == Drained(depack.codec, State(), clock, i)
        invariant frames == old(frames) + sink
        decreases |jitter|
      {
        var s := FirstKey();
        var due := nextExtSeq < 0 || s == nextExtSeq || |jitter| > JITTER_MAX ||
                   clock(i) - jitter[s].receivedMs >= REPAIR_BUDGET_MS;
        if !due { break; }
        PopShrinks(depack.codec, State(), s);
        var frame := Pop(s);
        sink := sink + ToSeq(frame);
        i := i + 1;
      }
    }

    /** One datagram; returns what the sink receives and the range of numbers to NACK. */
    method OnDatagram(data: seq<byte>, now: int) returns (sink: Option<Frame>, nack: Option<(int, int)>)
      modifies this, depack
      ensures State() == Received(depack.codec, stream, old(State()), data, now)
      ensures frames == old(frames) + ToSeq(sink)
      ensures nack == RangeOf(stream, old(State()), data)
    {
      hide Delivered, Parse, Signed16;
      sink, nack := None, None;
      var parsed := Parse(data);
      if parsed.None? || parsed.value.ssrc != stream.ssrc || parsed.value.payloadType != stream.payloadType {
        return;
      }
      var d := parsed.value;
      var ext := if highestExtSeq < 0 then d.seqNo
                 else highestExtSeq + Signed16(d.seqNo - highestExtSeq % TWO16);
      if ext > highestExtSeq {
        if highestExtSeq >= 0 && ext > highestExtSeq + 1 {
          var gap := ext - highestExtSeq - 1;
          if gap <= NACK_MAX_GAP {
            nack := Some((highestExtSeq + 1, ext));
          }
        }
        highestExtSeq := ext;
      }
      if nextExtSeq >= 0 && ext < nextExtSeq {
        return;
      }
      var video := Video(d.payload, d.marker, d.ts);
      if nextExtSeq < 0 || ext == nextExtSeq {
        sink := Deliver(ext, video);
      } else if ext !in jitter {
        jitter := jitter[ext := Held(video, now)];
      }
    }
  }
}
