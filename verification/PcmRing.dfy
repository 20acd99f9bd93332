/**
 The audio capture ring (src/streamer/pipewire_audio_source.cpp): 50 ms of interleaved samples, filled
 by the audio server and emptied in chunks of 10 ms by the encoder.
 */
module PcmRing {
  import opened Bytes

  type Sample = int

  datatype Format = Format(rate: int, channels: int)

  /** What start() accepts. */
  predicate Startable(f: Format) {
    f.rate >= 100 && f.channels > 0
  }

  function Capacity(f: Format): int { f.rate / 20 * f.channels }

  function Want(f: Format): int { f.rate * 10 / 1000 * f.channels }

  function Duration(f: Format, samples: int): int
    requires Startable(f)
  {
    samples / f.channels * 1_000_000 / f.rate
  }

  // ---------------------------------------------------------------- the queue it stands for

  datatype Queue = Queue(contents: seq<Sample>, ptsUsec: int)

  /** The last n of s. */
  function Last(n: int, s: seq<Sample>): (r: seq<Sample>)
    requires n >= 0
    ensures |r| == Min(n, |s|)
  {
    if |s| <= n then s else s[|s| - n..]
  }

  /** Whole frames only. */
  function WholeFrames(f: Format, src: seq<Sample>): (r: seq<Sample>)
    requires Startable(f)
    ensures |r| % f.channels == 0 && |r| <= |src|
  {
    Whole(|src|, f.channels);
    src[..|src| / f.channels * f.channels]
  }

  /** A chunk of so many bytes, and the samples that are whole in it. */
  datatype Raw = Raw(size: nat, samples: seq<Sample>)

  type Plane = b: Raw | |b.samples| == b.size / 2 witness Raw(0, [])

  /** An empty chunk changes nothing, not even the timestamp. */
  function Captured(f: Format, q: Queue, plane: Plane, now: int): Queue
    requires Startable(f)
  {
    if plane.size == 0 then q else Extended(f, q, plane.samples, now)
  }

  function Extended(f: Format, q: Queue, src: seq<Sample>, now: int): Queue
    requires Startable(f)
  {
    SizesFit(f);
    var contents := Last(Capacity(f), q.contents + WholeFrames(f, src));
    Queue(contents, now - Duration(f, |contents|))
  }

  /** The code next_chunk returns, and what it loans out. */
  datatype Chunk = Chunk(code: int, samples: seq<Sample>, ptsUsec: int)

  function Loaned(f: Format, q: Queue, running: bool): (Queue, Chunk)
    requires Startable(f)
  {
    SizesFit(f);
    if !running && q.contents == [] then (q, Chunk(-1, [], 0))
    else if |q.contents| < Want(f) then (q, Chunk(0, [], 0))
    else
      (Queue(q.contents[Want(f)..], q.ptsUsec + Duration(f, Want(f))),
       Chunk(Want(f), q.contents[..Want(f)], q.ptsUsec))
  }

  /** n is c, k times over. */
  lemma Multiple(k: int, c: int)
    requires c > 0
    ensures k * c % c == 0 && k * c / c == k && (k > 0 ==> k * c >= c) && (k >= 0 ==> k * c >= 0)
  {
    var q, r := k * c / c, k * c % c;
    assert k * c == c * q + r;
    assert c * (k - q) == r;
    if k - q >= 1 {
      Scaled(1, k - q, c);
    } else if k - q <= -1 {
      Scaled(k - q, -1, c);
    }
    Scaled(0, if k > 0 then k - 1 else 0, c);
    if k > 0 { assert k * c == (k - 1) * c + c; }
  }

  lemma Scaled(a: int, b: int, c: int)
    requires a <= b && c > 0
    ensures a * c <= b * c && c * a <= c * b
  {
  }

  lemma Whole(n: int, c: int)
    requires c > 0
    ensures n / c * c <= n && n / c * c % c == 0 && (n >= 0 ==> n / c * c >= 0)
    ensures n % c == 0 ==> n / c * c == n
  {
    Multiple(n / c, c);
  }

  /** A chunk is a positive number of frames and fits the ring. */
  lemma SizesFit(f: Format)
    requires Startable(f)
    ensures 0 < Want(f) <= Capacity(f) && Want(f) % f.channels == 0 && Capacity(f) % f.channels == 0
  {
    Multiple(f.rate * 10 / 1000, f.channels);
    Multiple(f.rate / 20, f.channels);
    Scaled(f.rate * 10 / 1000, f.rate / 20, f.channels);
  }

  lemma Aligned(a: int, b: int, c: int)
    requires c > 0 && a % c == 0 && b % c == 0
    ensures (a + b) % c == 0 && (a - b) % c == 0
  {
    var x, y := a / c, b / c;
    Quotient(a, c);
    Quotient(b, c);
    Distributes(x, y, c);
    Multiple(x + y, c);
    Multiple(x - y, c);
  }

  lemma Quotient(a: int, c: int)
    requires c > 0 && a % c == 0
    ensures a == a / c * c
  {
  }

  lemma Distributes(x: int, y: int, c: int)
    ensures x * c + y * c == (x + y) * c && x * c - y * c == (x - y) * c
  {
  }

  // ------------------------------------------------------------------------- the ring

  /** Positions up to two rounds from the start: the remainder by subtraction. */
  function Slot(p: nat, n: nat): (i: nat)
    requires p < 2 * n
    ensures i < n
  {
    if p < n then p else p - n
  }

  lemma SlotIsRemainder(p: nat, n: nat)
    requires p < 2 * n
    ensures p % n == Slot(p, n)
  {
  }

  /** n samples from `start` on, around the end of the ring if need be. */
  ghost function Unrolled(ring: seq<Sample>, start: nat, n: nat): (s: seq<Sample>)
    requires start < |ring| && n <= |ring|
    ensures |s| == n && forall i :: 0 <= i < n ==> s[i] == ring[Slot(start + i, |ring|)]
  {
    seq(n, i requires 0 <= i < n => ring[Slot(start + i, |ring|)])
  }

  lemma LastMeans(n: nat, s: seq<Sample>)
    ensures Last(n, s) == if |s| <= n then s else s[|s| - n..]
    ensures |Last(n, s)| <= n
  {
  }

  /** Making room for the newest of the data, and appending it, keeps the newest of all. */
  lemma NewestKept(before: seq<Sample>, data: seq<Sample>, capacity: nat)
    ensures var src := Last(capacity, data);
      Last(capacity - |src|, before) + src == Last(capacity, before + data)
  {
  }

  class AudioSource {
    const fmt: Format
    const buffer: array<Sample>
    var readPos: nat
    var bufferedSamples: nat
    var ptsUsec: int

    ghost predicate Valid()
      reads `readPos, `bufferedSamples
    {
      && Startable(fmt) && buffer.Length == Capacity(fmt) > 0
      && readPos < buffer.Length && bufferedSamples <= buffer.Length
    }

    ghost function Contents(): (s: seq<Sample>)
      reads `readPos, `bufferedSamples, buffer
      requires Valid()
      ensures |s| == bufferedSamples
    {
      Unrolled(buffer[..], readPos, bufferedSamples)
    }

    ghost function State(): Queue
      reads this, buffer
      requires Valid()
    {
      Queue(Contents(), ptsUsec)
    }

    constructor (fmt: Format)
      requires Startable(fmt)
      ensures Valid() && this.fmt == fmt && State() == Queue([], 0) && fresh(buffer)
    {
      SizesFit(fmt);
      this.fmt := fmt;
      buffer := new Sample[Capacity(fmt)](i => 0);
      readPos, bufferedSamples, ptsUsec := 0, 0, 0;
    }

    method OnProcess(plane: Plane, now: int)
      requires Valid()
      modifies this, buffer
      ensures Valid() && State() == Captured(fmt, old(State()), plane, now)
    {
      hide Duration, Capacity, WholeFrames;
      if plane.size == 0 { return; }
      var src := WholeFrames(fmt, plane.samples);
      ghost var all := Contents() + src;
      Write(src);
      ptsUsec := now - Duration(fmt, bufferedSamples);
    }

    /** The newest samples that fit are kept. */
    method Write(data: seq<Sample>)
      requires Valid()
      modifies this`readPos, this`bufferedSamples, buffer
      ensures Valid() && Contents() == Last(buffer.Length, old(Contents()) + data)
    {
      hide *;
      var src, capacity := data, buffer.Length;
      ghost var before := Contents();
      if |data| > capacity {
        src := data[|data| - capacity..];
      }
      LastMeans(capacity, data);
      LastMeans(capacity - |src|, before);
      Discard(|src|);
      assert |Contents()| == bufferedSamples;
      Append(src);
      NewestKept(before, data, capacity);
    }

    /** Room for n more: the oldest samples go. */
    method Discard(n: nat)
      requires Valid() && n <= buffer.Length
      modifies this`readPos, this`bufferedSamples
      ensures Valid()
      ensures Contents() == Last(buffer.Length - n, old(Contents()))
    {
      var capacity := buffer.Length;
      if bufferedSamples + n > capacity {
        var discard := bufferedSamples + n - capacity;
        ghost var before := Contents();
        Drop(discard);
        assert Contents() == before[discard..];
      }
    }

    /** The read position moves on by n. */
    method Drop(n: nat)
      requires Valid() && n <= bufferedSamples
      modifies this`readPos, this`bufferedSamples
      ensures Valid() && Contents() == old(Contents())[n..]
    {
      SlotIsRemainder(readPos + n, buffer.Length);
      readPos := (readPos + n) % buffer.Length;
      bufferedSamples := bufferedSamples - n;
      assert Contents() == old(Contents())[n..];
    }

    /** Two copies, the second from the start of the buffer. */
    method Append(src: seq<Sample>)
      requires Valid() && bufferedSamples + |src| <= buffer.Length
      modifies this`bufferedSamples, buffer
      ensures Valid() && Contents() == old(Contents()) + src
    {
      var capacity := buffer.Length;
      SlotIsRemainder(readPos + bufferedSamples, capacity);
      var writePos := (readPos + bufferedSamples) % capacity;
      var first := Min(|src|, capacity - writePos);
      forall i | 0 <= i < first {
        buffer[writePos + i] := src[i];
      }
      forall i | 0 <= i < |src| - first {
        buffer[i] := src[first + i];
      }
      bufferedSamples := bufferedSamples + |src|;
      assert Contents() == old(Contents()) + src;
    }

    method NextChunk(running: bool) returns (chunk: Chunk)
      requires Valid()
      modifies this
      ensures Valid() && buffer[..] == old(buffer[..])
      ensures (State(), chunk) == Loaned(fmt, old(State()), running)
    {
      SizesFit(fmt);
      hide Duration, Want, Capacity;
      var want := Want(fmt);
      if !running && bufferedSamples == 0 { return Chunk(-1, [], 0); }
      if bufferedSamples < want { return Chunk(0, [], 0); }
      var loan := Loan(want);
      Drop(want);
      chunk := Chunk(want, loan, ptsUsec);
      ptsUsec := ptsUsec + Duration(fmt, want);
    }

    /** A copy of the oldest samples, in two parts if they run over the end of the buffer. */
    method Loan(want: nat) returns (loan: seq<Sample>)
      requires Valid() && want <= bufferedSamples
      ensures loan == Contents()[..want]
    {
      hide Capacity;
      var first := Min(want, buffer.Length - readPos);
      loan := buffer[readPos..readPos + first] + buffer[..want - first];
      assert loan == Contents()[..want];
    }
  }

  // ------------------------------------------------------------------------ whole runs

  datatype Event = Process(plane: Plane, now: int) | Pull(running: bool)

  /** A chunk and the place of its first sample in the captured stream. */
  datatype Delivery = Delivery(at: nat, samples: seq<Sample>)

  /** All samples captured so far, how many were lost, and what was delivered. */
  datatype Run = Run(queue: Queue, captured: seq<Sample>, discarded: int, deliveries: seq<Delivery>)

  const FIRST := Run(Queue([], 0), [], 0, [])

  function Total(ds: seq<Delivery>): nat {
    if ds == [] then 0 else Total(ds[..|ds| - 1]) + |ds[|ds| - 1].samples|
  }

  ghost function Next(f: Format, r: Run, e: Event): Run
    requires Startable(f)
  {
    match e
    case Process(plane, now) =>
      var q := Captured(f, r.queue, plane, now);
      var more := WholeFrames(f, plane.samples);
      r.(queue := q, captured := r.captured + more,
         discarded := r.discarded + |r.queue.contents| + |more| - |q.contents|)
    case Pull(running) =>
      var (q, chunk) := Loaned(f, r.queue, running);
      if chunk.code <= 0 then r.(queue := q)
      else
        r.(queue := q, deliveries := r.deliveries + [Delivery(Total(r.deliveries) + Nat(r.discarded), chunk.samples)])
  }

  function Nat(n: int): nat { if n < 0 then 0 else n }

  ghost function After(f: Format, es: seq<Event>): Run
    requires Startable(f)
  {
    if es == [] then FIRST else Next(f, After(f, es[..|es| - 1]), es[|es| - 1])
  }

  /** A chunk of 10 ms, cut out of the stream at a frame boundary. */
  ghost predicate CutFrom(f: Format, captured: seq<Sample>, d: Delivery) {
    && f.channels > 0 && d.at % f.channels == 0 && |d.samples| == Want(f)
    && d.at + |d.samples| <= |captured| && d.samples == captured[d.at..d.at + |d.samples|]
  }

  ghost predicate InOrder(ds: seq<Delivery>, end: int) {
    && (forall i, j :: 0 <= i < j < |ds| ==> ds[i].at + |ds[i].samples| <= ds[j].at)
    && (forall i :: 0 <= i < |ds| ==> ds[i].at + |ds[i].samples| <= end)
  }

  ghost predicate Sound(f: Format, r: Run) {
    var gone := Total(r.deliveries) + r.discarded;
    && Startable(f) && r.discarded >= 0 && gone <= |r.captured|
    && r.queue.contents == r.captured[gone..] && |r.queue.contents| <= Capacity(f)
    && gone % f.channels == 0 && |r.captured| % f.channels == 0
    && (forall d :: d in r.deliveries ==> CutFrom(f, r.captured, d))
    && InOrder(r.deliveries, gone)
  }

  /** What the ring keeps of the end of a stream that goes on is the end of the longer stream. */
  lemma LastOfStream(stream: seq<Sample>, gone: nat, more: seq<Sample>, n: nat)
    requires gone <= |stream|
    ensures var all, q := stream + more, Last(n, stream[gone..] + more);
      && gone <= |all| - |q| && q == all[|all| - |q|..]
      && (gone < |all| - |q| ==> |q| == n)
  {
    assert stream[gone..] + more == (stream + more)[gone..];
  }

  lemma CutsKept(f: Format, stream: seq<Sample>, more: seq<Sample>, ds: seq<Delivery>)
    requires forall d :: d in ds ==> CutFrom(f, stream, d)
    ensures forall d :: d in ds ==> CutFrom(f, stream + more, d)
  {
    hide Want;
    forall d | d in ds ensures CutFrom(f, stream + more, d) {
      assert CutFrom(f, stream, d);
      assert (stream + more)[..|stream|] == stream;
    }
  }

  lemma InOrderKept(ds: seq<Delivery>, end: int, end': int)
    requires InOrder(ds, end) && end <= end'
    ensures InOrder(ds, end')
  {
  }

  lemma ProcessSound(f: Format, r: Run, plane: Plane, now: int)
    requires Sound(f, r)
    ensures Sound(f, Next(f, r, Process(plane, now)))
  {
    hide Capacity, WholeFrames, Duration, Want, Last, CutFrom, InOrder;
    SizesFit(f);
    var r' := Next(f, r, Process(plane, now));
    var gone, gone' := Total(r.deliveries) + r.discarded, Total(r'.deliveries) + r'.discarded;
    var more := WholeFrames(f, plane.samples);
    if plane.size == 0 {
      EmptyPlane(f, plane);
    }
    LastOfStream(r.captured, gone, more, Capacity(f));
    LastIsShort(Capacity(f), r.queue.contents, more);
    Aligned(|r.captured|, |more|, f.channels);
    if gone' != gone {
      Aligned(|r'.captured|, Capacity(f), f.channels);
    }
    CutsKept(f, r.captured, more, r.deliveries);
    InOrderKept(r.deliveries, gone, gone');
  }

  lemma EmptyPlane(f: Format, plane: Plane)
    requires Startable(f) && plane.size == 0
    ensures WholeFrames(f, plane.samples) == []
  {
  }

  lemma LastIsShort(n: nat, contents: seq<Sample>, more: seq<Sample>)
    ensures |Last(n, contents + more)| <= n
    ensures |contents| <= n ==> Last(n, contents + []) == contents
  {
  }

  /** A chunk more. */
  lemma DeliverySnoc(f: Format, stream: seq<Sample>, ds: seq<Delivery>, end: nat)
    requires Startable(f) && (forall d :: d in ds ==> CutFrom(f, stream, d)) && InOrder(ds, end)
    requires end + Want(f) <= |stream| && end % f.channels == 0 && Want(f) >= 0
    ensures var d := Delivery(end, stream[end..end + Want(f)]); var ds' := ds + [d];
      && (forall x :: x in ds' ==> CutFrom(f, stream, x)) && InOrder(ds', end + Want(f))
      && Total(ds') == Total(ds) + Want(f)
  {
    hide Want;
    var d := Delivery(end, stream[end..end + Want(f)]);
    assert (ds + [d])[..|ds|] == ds;
    forall x | x in ds + [d] ensures CutFrom(f, stream, x) {
      assert x in ds || x == d;
    }
  }

  lemma PullSound(f: Format, r: Run, running: bool)
    requires Sound(f, r)
    ensures Sound(f, Next(f, r, Pull(running)))
  {
    hide Capacity, WholeFrames, Duration, Want, CutFrom, InOrder, Total;
    SizesFit(f);
    var gone := Total(r.deliveries) + r.discarded;
    if |r.queue.contents| >= Want(f) {
      DeliverySnoc(f, r.captured, r.deliveries, gone);
      assert r.queue.contents[..Want(f)] == r.captured[gone..gone + Want(f)];
      assert r.queue.contents[Want(f)..] == r.captured[gone + Want(f)..];
      Aligned(gone, Want(f), f.channels);
    }
  }

  lemma {:induction false} AlwaysSound(f: Format, es: seq<Event>)
    requires Startable(f)
    ensures Sound(f, After(f, es))
  {
    hide Next, Capacity, Want;
    if es == [] {
      FirstSound(f);
    } else {
      hide Sound;
      AlwaysSound(f, es[..|es| - 1]);
      match es[|es| - 1]
      case Process(plane, now) => ProcessSound(f, After(f, es[..|es| - 1]), plane, now);
      case Pull(running) => PullSound(f, After(f, es[..|es| - 1]), running);
    }
  }

  lemma FirstSound(f: Format)
    requires Startable(f)
    ensures Sound(f, FIRST)
  {
    SizesFit(f);
  }

  /**
   However captures and pulls interleave: what is buffered is the end of the captured stream, at most
   50 ms of it; every chunk is 10 ms of the stream, cut at a frame boundary, none overlapping or
   preceding an earlier one; and what was captured has been delivered, discarded, or is buffered.
   */
  lemma ChunksAreTheStream(f: Format, es: seq<Event>)
    requires Startable(f)
    ensures var r := After(f, es); var gone := Total(r.deliveries) + r.discarded;
      && r.discarded >= 0 && |r.captured| == gone + |r.queue.contents|
      && r.queue.contents == r.captured[gone..] && |r.queue.contents| <= Capacity(f)
      && |r.queue.contents| % f.channels == 0
      && (forall d :: d in r.deliveries ==> CutFrom(f, r.captured, d))
      && InOrder(r.deliveries, gone)
  {
    hide After, CutFrom, InOrder, Capacity, Total;
    AlwaysSound(f, es);
    var r := After(f, es);
    Aligned(|r.captured|, Total(r.deliveries) + r.discarded, f.channels);
  }

  // ------------------------------------------------------------------------ what time it was

  /** The oldest sample's time is that of its capture, to within k microseconds, `now` being the newest's. */
  ghost predicate Timed(f: Format, q: Queue, now: int, k: int) {
    && Startable(f) && |q.contents| % f.channels == 0
    && now - k <= q.ptsUsec + Duration(f, |q.contents|) <= now
  }

  lemma QuotientIs(x: int, r: int, q: int)
    requires r > 0 && r * q <= x < r * q + r
    ensures x / r == q
  {
    var d := x / r - q;
    assert x == r * (x / r) + x % r;
    assert r * d == r * (x / r) - r * q;
    if d >= 1 {
      Scaled(1, d, r);
    } else if d <= -1 {
      Scaled(d, -1, r);
    }
  }

  /** Rounding down loses at most one in a sum of two. */
  lemma QuotientsAdd(x: int, y: int, r: int)
    requires r > 0
    ensures x / r + y / r <= (x + y) / r <= x / r + y / r + 1
  {
    var a, b := x / r, y / r;
    var m := x % r + y % r;
    assert x == r * a + x % r && y == r * b + y % r;
    assert r * (a + b) == r * a + r * b && r * (a + b + 1) == r * (a + b) + r;
    if m < r {
      QuotientIs(x + y, r, a + b);
    } else {
      QuotientIs(x + y, r, a + b + 1);
    }
  }

  lemma LengthsAdd(f: Format, m: nat, n: nat)
    requires Startable(f) && m % f.channels == 0 && n % f.channels == 0
    ensures Duration(f, m) + Duration(f, n) <= Duration(f, m + n) <= Duration(f, m) + Duration(f, n) + 1
  {
    var x, y := m / f.channels, n / f.channels;
    Quotient(m, f.channels);
    Quotient(n, f.channels);
    Distributes(x, y, f.channels);
    Multiple(x + y, f.channels);
    QuotientsAdd(x * 1_000_000, y * 1_000_000, f.rate);
  }

  /** A capture sets the time of its newest sample. */
  lemma CaptureTimes(f: Format, q: Queue, plane: Plane, now: int)
    requires Startable(f) && |q.contents| % f.channels == 0 && plane.size > 0
    ensures Timed(f, Captured(f, q, plane, now), now, 0)
  {
    SizesFit(f);
    var more := WholeFrames(f, plane.samples);
    Aligned(|q.contents|, |more|, f.channels);
    hide WholeFrames, Capacity;
  }

  lemma PullTimes(f: Format, q: Queue, now: int, k: nat, running: bool)
    requires Timed(f, q, now, k)
    ensures var (q', chunk) := Loaned(f, q, running);
      && Timed(f, q', now, k + 1)
      && (chunk.code > 0 ==> now - k <= chunk.ptsUsec + Duration(f, |q.contents|) <= now)
  {
    SizesFit(f);
    if |q.contents| >= Want(f) {
      Aligned(|q.contents|, Want(f), f.channels);
      LengthsAdd(f, Want(f), |q.contents| - Want(f));
      hide Duration, Want;
    }
  }

  /** A capture, and pulls after it. */
  ghost predicate OnlyPulls(es: seq<Event>) {
    forall i :: 0 <= i < |es| ==> es[i].Pull?
  }

  lemma {:induction false} PullsTimed(f: Format, es: seq<Event>, plane: Plane, now: int, pulls: seq<Event>)
    requires Startable(f) && plane.size > 0 && OnlyPulls(pulls)
    ensures Timed(f, After(f, es + [Process(plane, now)] + pulls).queue, now, |pulls|)
    decreases |pulls|
  {
    hide Timed, Captured, Loaned;
    var before := es + [Process(plane, now)];
    if pulls == [] {
      assert before + pulls == before && before[..|before| - 1] == es;
      ChunksAreTheStream(f, es);
      CaptureTimes(f, After(f, es).queue, plane, now);
    } else {
      var m := |pulls| - 1;
      assert (before + pulls)[..|before + pulls| - 1] == before + pulls[..m];
      PullsTimed(f, es, plane, now, pulls[..m]);
      PullTimes(f, After(f, before + pulls[..m]).queue, now, m, pulls[m].running);
    }
  }

  /**
   On every run: after a capture read off the clock at `now`, and any number of pulls, the time of the next
   chunk is that of its first sample, so far before `now` as what is still buffered lasts, to within a
   microsecond for each pull.
   */
  lemma ChunksAreOnTime(f: Format, es: seq<Event>, plane: Plane, now: int, pulls: seq<Event>, running: bool)
    requires Startable(f) && plane.size > 0 && OnlyPulls(pulls)
    ensures var q := After(f, es + [Process(plane, now)] + pulls).queue;
      var chunk := Loaned(f, q, running).1;
      chunk.code > 0 ==>
        now - |pulls| <= chunk.ptsUsec + |q.contents| / f.channels * 1_000_000 / f.rate <= now
  {
    hide After, Loaned, Timed;
    PullsTimed(f, es, plane, now, pulls);
    PullTimes(f, After(f, es + [Process(plane, now)] + pulls).queue, now, |pulls|, running);
  }

  // ------------------------------------------------------------------------ what is lost, and what is not

  /**
   A pull delivers exactly if 10 ms are buffered; else it says that there is too little, or, once stopped
   and empty, that this is the end.
   */
  lemma PullsDeliverExactly(f: Format, es: seq<Event>, running: bool)
    requires Startable(f)
    ensures var r, r' := After(f, es), After(f, es + [Pull(running)]);
      var chunk := Loaned(f, r.queue, running).1;
      && (|r'.deliveries| == |r.deliveries| + 1 <==> |r.queue.contents| >= f.rate / 100 * f.channels)
      && (chunk.code == -1 <==> !running && r.queue.contents == [])
      && (chunk.code == 0 <==> |r.queue.contents| < f.rate / 100 * f.channels && !(!running && r.queue.contents == []))
  {
    var r := After(f, es);
    assert (es + [Pull(running)])[..|es|] == es;
    SizesFit(f);
    Hundredths(f.rate);
  }

  lemma Hundredths(rate: int)
    ensures rate * 10 / 1000 == rate / 100
  {
  }

  /** A capture discards samples only if more than 50 ms would be buffered, and then leaves exactly 50 ms. */
  lemma DiscardsAreNeeded(f: Format, es: seq<Event>, plane: Plane, now: int)
    requires Startable(f)
    ensures var r, r' := After(f, es), After(f, es + [Process(plane, now)]);
      var more := WholeFrames(f, plane.samples);
      var all, room := |r.queue.contents| + |more|, f.rate / 20 * f.channels;
      && r'.discarded == r.discarded + (if all > room then all - room else 0)
      && |r'.queue.contents| == if all > room then room else all
  {
    var r := After(f, es);
    assert (es + [Process(plane, now)])[..|es|] == es;
    ChunksAreTheStream(f, es);
    SizesFit(f);
    if plane.size == 0 {
      EmptyPlane(f, plane);
    }
    hide WholeFrames, After;
  }
}
