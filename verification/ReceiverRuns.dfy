/**
 What the receive loop neither holds back nor leaves out: nothing waits in the jitter buffer beyond its
 budget, and over every run exactly the numbers skipped are asked for again.
 */
module ReceiverRuns {
  import opened Bytes
  import opened Rtp
  import opened Packetizer
  import opened Depacketizer
  import opened Receiver
  import N = Nack

  // ------------------------------------------------------------------ nothing waits for good

  /**
   Nothing held has to leave at this reading: the lowest number held is not the next one expected, at
   most 512 packets are held, and the lowest has been held for less than 30 ms.
   */
  ghost predicate Settled(s: Recv, now: int) {
    s.jitter == map[] ||
    var k := Head(s.jitter);
    s.next >= 0 && k != s.next && |s.jitter| <= 512 && now - s.jitter[k].receivedMs < 30
  }

  lemma NotDueIsSettled(s: Recv, now: int)
    ensures Settled(s, now) <==> s.jitter == map[] || !Due(s, Head(s.jitter), now)
  {
  }

  /** The round of a drain that began with round i at which it ended, each round but that one freeing a packet. */
  function LastRound(i: int, s: Recv, s': Recv): int {
    i + |s.jitter| - |s'.jitter|
  }

  /** A drain ends settled at its last reading. */
  lemma {:induction false} DrainSettles(c: Codec, s: Recv, clock: int -> int, i: int)
    ensures var s' := Drained(c, s, clock, i);
      |s'.jitter| <= |s.jitter| && Settled(s', clock(LastRound(i, s, s')))
    decreases |s.jitter|
  {
    hide Popped, Due, Settled;
    NotDueIsSettled(s, clock(i));
    if s.jitter != map[] && Due(s, Head(s.jitter), clock(i)) {
      PopShrinks(c, s, Head(s.jitter));
      DrainSettles(c, Popped(c, s, Head(s.jitter)), clock, i + 1);
    }
  }

  /** And it lets nothing go that does not have to leave. */
  lemma DrainIsIdleExactly(c: Codec, s: Recv, clock: int -> int, i: int)
    ensures Drained(c, s, clock, i) == s <==> Settled(s, clock(i))
  {
    if s.jitter != map[] && Due(s, Head(s.jitter), clock(i)) {
      hide Popped;
      PopShrinks(c, s, Head(s.jitter));
      DrainSettles(c, Popped(c, s, Head(s.jitter)), clock, i + 1);
    }
  }

  lemma {:induction false} DrainTrace(c: Codec, s: Recv, clock: int -> int, i: int)
    ensures s.trace <= Drained(c, s, clock, i).trace
    decreases |s.jitter|
  {
    if s.jitter != map[] && Due(s, Head(s.jitter), clock(i)) {
      PopShrinks(c, s, Head(s.jitter));
      PopTrace(c, s, Head(s.jitter));
      hide Popped, Due;
      DrainTrace(c, Popped(c, s, Head(s.jitter)), clock, i + 1);
    }
  }

  lemma PopTrace(c: Codec, s: Recv, k: int)
    requires k in s.jitter
    ensures var s' := Popped(c, s, k);
      s.trace <= s'.trace && Handed(k) in s'.trace && s'.jitter == s.jitter - {k}
  {
    hide Step;
    var t := Popped(c, s, k).trace;
    assert t[|t| - 1] == Handed(k);
  }

  /** Everything held up to ext is 30 ms old or older: ext is handed over in the next drain. */
  lemma {:induction false} ExpiredIsHanded(c: Codec, s: Recv, clock: int -> int, i: int, t: int, ext: int)
    requires ext in s.jitter && forall j :: j >= i ==> clock(j) >= t
    requires forall k :: k in s.jitter && k <= ext ==> t - s.jitter[k].receivedMs >= 30
    ensures Handed(ext) in Drained(c, s, clock, i).trace
    decreases |s.jitter|
  {
    var k := Head(s.jitter);
    assert clock(i) >= t && t - s.jitter[k].receivedMs >= 30;
    assert Due(s, k, clock(i));
    PopShrinks(c, s, k);
    PopTrace(c, s, k);
    hide Popped, Due;
    var s1 := Popped(c, s, k);
    if k == ext {
      DrainTrace(c, s1, clock, i + 1);
    } else {
      ExpiredIsHanded(c, s1, clock, i + 1, t, ext);
    }
  }

  lemma {:induction false} LoopedSnoc(c: Codec, st: Stream, s: Recv, ts: seq<Turn>, t: Turn)
    ensures Looped(c, st, s, ts + [t]) == TurnDone(c, st, Looped(c, st, s, ts), t)
    decreases |ts|
  {
    hide TurnDone;
    if ts == [] {
      assert ([] + [t])[1..] == [];
    } else {
      assert (ts + [t])[1..] == ts[1..] + [t];
      LoopedSnoc(c, st, TurnDone(c, st, s, ts[0]), ts[1..], t);
    }
  }

  lemma ReceivedTrace(c: Codec, st: Stream, s: Recv, data: seq<byte>, now: int)
    ensures s.trace <= Received(c, st, s, data, now).trace
  {
    hide Step, VideoIn, Unwrap;
  }

  /**
   On every run: a packet that is held, with all that is held before it, for 30 ms is handed over in the
   next iteration, however much was lost before it.
   */
  lemma NothingWaitsForGood(c: Codec, st: Stream, ts: seq<Turn>, turn: Turn, t: int, ext: int)
    requires var s := Looped(c, st, START, ts);
      && ext in s.jitter
      && (forall k :: k in s.jitter && k <= ext ==> t - s.jitter[k].receivedMs >= 30)
    requires forall j :: j >= 0 ==> turn.clock(j) >= t
    ensures Handed(ext) in Looped(c, st, START, ts + [turn]).trace
  {
    hide Looped, Drained, Received;
    var s := Looped(c, st, START, ts);
    LoopedSnoc(c, st, START, ts, turn);
    ExpiredIsHanded(c, s, turn.clock, 0, t, ext);
    if turn.data.Some? {
      ReceivedTrace(c, st, Drained(c, s, turn.clock, 0), turn.data.value, turn.now);
    }
  }

  // ------------------------------------------------------------------ what is asked for again

  /** The ranges NACKed in a run, in order. */
  ghost function Ranges(c: Codec, st: Stream, s: Recv, ts: seq<Turn>): seq<(int, int)>
    decreases |ts|
  {
    if ts == [] then []
    else RangeIn(c, st, s, ts[0]) + Ranges(c, st, TurnDone(c, st, s, ts[0]), ts[1..])
  }

  ghost function RangeIn(c: Codec, st: Stream, s: Recv, t: Turn): seq<(int, int)> {
    if t.data.None? then [] else ToSeq(RangeOf(st, Drained(c, s, t.clock, 0), t.data.value))
  }

  /** The numbers that were the highest so far when they arrived. */
  ghost function Highs(c: Codec, st: Stream, s: Recv, ts: seq<Turn>): seq<int>
    decreases |ts|
  {
    if ts == [] then []
    else
      var s' := TurnDone(c, st, s, ts[0]);
      (if s'.highest > s.highest then [s'.highest] else []) + Highs(c, st, s', ts[1..])
  }

  /** What lies between one highest number and the next, if that is 256 numbers or fewer. */
  ghost function Between(h: int, highs: seq<int>): seq<(int, int)>
    decreases |highs|
  {
    if highs == [] then []
    else (if h >= 0 && 1 < highs[0] - h <= 257 then [(h + 1, highs[0])] else []) + Between(highs[0], highs[1..])
  }

  lemma {:induction false} DrainHighest(c: Codec, s: Recv, clock: int -> int, i: int)
    ensures Drained(c, s, clock, i).highest == s.highest
    decreases |s.jitter|
  {
    if s.jitter != map[] && Due(s, Head(s.jitter), clock(i)) {
      PopShrinks(c, s, Head(s.jitter));
      PopHighest(c, s, Head(s.jitter));
      hide Popped, Due;
      DrainHighest(c, Popped(c, s, Head(s.jitter)), clock, i + 1);
    }
  }

  lemma PopHighest(c: Codec, s: Recv, k: int)
    requires k in s.jitter
    ensures Popped(c, s, k).highest == s.highest
  {
    hide Step;
  }

  lemma ReceivedRange(c: Codec, st: Stream, s: Recv, data: seq<byte>, now: int)
    requires s.highest >= -1
    ensures var h := Received(c, st, s, data, now).highest;
      && h >= s.highest
      && ToSeq(RangeOf(st, s, data)) == Between(s.highest, if h > s.highest then [h] else [])
  {
    hide Step, Parse;
  }

  lemma TurnRange(c: Codec, st: Stream, s: Recv, t: Turn)
    requires s.highest >= -1
    ensures var h := TurnDone(c, st, s, t).highest;
      && h >= s.highest
      && RangeIn(c, st, s, t) == Between(s.highest, if h > s.highest then [h] else [])
  {
    hide Received, Drained, RangeOf;
    DrainHighest(c, s, t.clock, 0);
    if t.data.Some? {
      ReceivedRange(c, st, Drained(c, s, t.clock, 0), t.data.value, t.now);
    }
  }

  lemma BetweenCons(h: int, x: int, highs: seq<int>)
    ensures Between(h, [x] + highs) == Between(h, [x]) + Between(x, highs)
  {
    assert ([x] + highs)[1..] == highs && [x][1..] == [];
  }

  /** Each range NACKed is what lies between one highest number and the next. */
  lemma {:induction false} RangesLieBetween(c: Codec, st: Stream, s: Recv, ts: seq<Turn>)
    requires s.highest >= -1
    ensures Ranges(c, st, s, ts) == Between(s.highest, Highs(c, st, s, ts))
    decreases |ts|
  {
    hide TurnDone, RangeIn;
    if ts != [] {
      var s' := TurnDone(c, st, s, ts[0]);
      TurnRange(c, st, s, ts[0]);
      RangesLieBetween(c, st, s', ts[1..]);
      if s'.highest > s.highest {
        BetweenCons(s.highest, s'.highest, Highs(c, st, s', ts[1..]));
      } else {
        assert Highs(c, st, s, ts) == Highs(c, st, s', ts[1..]);
      }
    }
  }

  ghost predicate Rising(h: int, highs: seq<int>)
    decreases |highs|
  {
    highs == [] || (h < highs[0] && Rising(highs[0], highs[1..]))
  }

  function Top(h: int, highs: seq<int>): int {
    if highs == [] then h else highs[|highs| - 1]
  }

  lemma {:induction false} HighsRise(c: Codec, st: Stream, s: Recv, ts: seq<Turn>)
    requires s.highest >= -1
    ensures Rising(s.highest, Highs(c, st, s, ts))
    ensures Top(s.highest, Highs(c, st, s, ts)) == Looped(c, st, s, ts).highest
    decreases |ts|
  {
    hide TurnDone;
    if ts != [] {
      var s' := TurnDone(c, st, s, ts[0]);
      TurnRange(c, st, s, ts[0]);
      HighsRise(c, st, s', ts[1..]);
      if s'.highest > s.highest {
        assert Highs(c, st, s, ts)[1..] == Highs(c, st, s', ts[1..]);
      } else {
        assert Highs(c, st, s, ts) == Highs(c, st, s', ts[1..]);
      }
    }
  }

  /** How many of the ranges hold n. */
  function Asks(ranges: seq<(int, int)>, n: int): nat {
    if ranges == [] then 0
    else (if ranges[0].0 <= n < ranges[0].1 then 1 else 0) + Asks(ranges[1..], n)
  }

  /** The arrival of highs[j] skipped n. */
  predicate Skips(highs: seq<int>, j: int, n: int) {
    0 < j < |highs| && highs[j - 1] < n < highs[j]
  }

  ghost predicate Skipped(highs: seq<int>, n: int) {
    exists j :: Skips(highs, j, n)
  }

  /** With 256 numbers or fewer skipped. */
  ghost predicate SkippedNear(highs: seq<int>, n: int) {
    exists j :: Skips(highs, j, n) && highs[j] - highs[j - 1] - 1 <= 256
  }

  lemma SkipsCons(h: int, highs: seq<int>, n: int)
    requires highs != []
    ensures Skipped([h] + highs, n) <==> h < n < highs[0] || Skipped(highs, n)
    ensures SkippedNear([h] + highs, n) <==>
      (h < n < highs[0] && highs[0] - h - 1 <= 256) || SkippedNear(highs, n)
  {
    var all := [h] + highs;
    assert Skips(all, 1, n) <==> h < n < highs[0];
    forall j | 1 < j < |all| ensures Skips(all, j, n) <==> Skips(highs, j - 1, n) { }
    forall j | Skips(highs, j, n) ensures Skips(all, j + 1, n) { }
  }

  lemma {:induction false} AskedBetween(h: int, highs: seq<int>, n: int)
    requires h >= 0 && Rising(h, highs)
    ensures var all := [h] + highs;
      && Asks(Between(h, highs), n) == (if SkippedNear(all, n) then 1 else 0)
      && (n <= h ==> !Skipped(all, n) && !SkippedNear(all, n))
      && (n < h ==> n !in all)
      && (h <= n <= Top(h, highs) ==> (n in all <==> !Skipped(all, n)))
    decreases |highs|
  {
    if highs != [] {
      SkipsCons(h, highs, n);
      hide Skipped, SkippedNear;
      assert [highs[0]] + highs[1..] == highs;
      AskedBetween(highs[0], highs[1..], n);
      BetweenAsks(h, highs, n);
      hide Between, Asks;
    }
  }

  lemma BetweenAsks(h: int, highs: seq<int>, n: int)
    requires h >= 0 && highs != []
    ensures Asks(Between(h, highs), n) ==
      (if h < n < highs[0] && highs[0] - h <= 257 then 1 else 0) + Asks(Between(highs[0], highs[1..]), n)
  {
    var more := Between(highs[0], highs[1..]);
    if 1 < highs[0] - h <= 257 {
      assert ([(h + 1, highs[0])] + more)[1..] == more;
    } else {
      assert Between(h, highs) == more;
    }
  }

  /**
   On every run of any datagrams, with `highs` the numbers that were the highest so far when they arrived:
   n is in exactly one range NACKed, if the arrival of one of them skipped it, among 256 numbers or fewer,
   and in none otherwise; and of the numbers from the first to the highest, exactly those are skipped that
   are not in `highs` themselves.
   */
  lemma SkippedAreAskedForOnce(c: Codec, st: Stream, ts: seq<Turn>, n: int)
    ensures var s := Looped(c, st, START, ts);
      var highs := Highs(c, st, START, ts);
      && Rising(-1, highs) && Top(-1, highs) == s.highest
      && Asks(Ranges(c, st, START, ts), n) == (if SkippedNear(highs, n) then 1 else 0)
      && (highs != [] && highs[0] <= n <= s.highest ==> (n in highs <==> !Skipped(highs, n)))
  {
    hide Looped, Highs, Ranges, Skipped, SkippedNear;
    HighsRise(c, st, START, ts);
    RangesLieBetween(c, st, START, ts);
    var highs := Highs(c, st, START, ts);
    if highs != [] {
      AskedBetween(highs[0], highs[1..], n);
      assert [highs[0]] + highs[1..] == highs;
      assert Between(-1, highs) == Between(highs[0], highs[1..]);
    } else {
      NothingSkipped(n);
    }
  }

  lemma NothingSkipped(n: int)
    ensures !SkippedNear([], n)
  {
  }

  // ------------------------------------------------------------------ and what the streamer reads of it

  /** The feedback packets sent for these ranges. */
  ghost function Packets(ssrc: int, ranges: seq<(int, int)>): seq<seq<byte>>
    requires 0 <= ssrc < TWO32
  {
    if ranges == [] then [] else N.Feedbacks(ssrc, ranges[0].0, ranges[0].1) + Packets(ssrc, ranges[1..])
  }

  /** n is in the range, and is x on the wire. */
  predicate Holds(r: (int, int), n: int, x: int) {
    r.0 <= n < r.1 && n % TWO16 == x
  }

  lemma {:induction false} WrappedHolds(a: int, b: int, x: int)
    ensures x in N.Wrapped(a, b) <==> exists n :: Holds((a, b), n, x)
    decreases b - a
  {
    if a < b {
      WrappedHolds(a + 1, b, x);
      N.WrappedFirst(a, b);
      assert Holds((a, b), a, x) <==> a % TWO16 == x;
      var whole, rest := (a, b), (a + 1, b);
      if n :| Holds(whole, n, x) {
        assert n == a || Holds(rest, n, x);
      }
      if n :| Holds(rest, n, x) {
        assert Holds(whole, n, x);
      }
    }
  }

  lemma {:induction false} AllAskedConcat(a: seq<seq<byte>>, b: seq<seq<byte>>, videoSsrc: int, audioSsrc: int)
    ensures N.AllAsked(a + b, videoSsrc, audioSsrc)
      == N.AllAsked(a, videoSsrc, audioSsrc) + N.AllAsked(b, videoSsrc, audioSsrc)
    decreases |a|
  {
    hide N.Asked;
    if a == [] {
      assert a + b == b;
    } else {
      assert (a + b)[1..] == a[1..] + b;
      AllAskedConcat(a[1..], b, videoSsrc, audioSsrc);
    }
  }

  /** n is in one of the ranges, and is x on the wire. */
  predicate AsksFor(ranges: seq<(int, int)>, n: int, x: int) {
    Asks(ranges, n) > 0 && n % TWO16 == x
  }

  lemma AsksForFirst(ranges: seq<(int, int)>, n: int, x: int)
    requires ranges != []
    ensures AsksFor(ranges, n, x) <==> Holds(ranges[0], n, x) || AsksFor(ranges[1..], n, x)
  {
  }

  lemma {:induction false} PacketsAsk(ssrc: int, ranges: seq<(int, int)>, audioSsrc: int, x: int)
    requires 0 <= ssrc < TWO32
    ensures x in N.AllAsked(Packets(ssrc, ranges), ssrc, audioSsrc) <==> exists n :: AsksFor(ranges, n, x)
    decreases |ranges|
  {
    if ranges != [] {
      hide N.AllAsked, N.Feedbacks, N.Wrapped, Holds, AsksFor;
      var r := ranges[0];
      AllAskedConcat(N.Feedbacks(ssrc, r.0, r.1), Packets(ssrc, ranges[1..]), ssrc, audioSsrc);
      N.NacksAreExact(r.0, r.1, ssrc, audioSsrc);
      WrappedHolds(r.0, r.1, x);
      assert (r.0, r.1) == r;
      PacketsAsk(ssrc, ranges[1..], audioSsrc, x);
      forall n ensures AsksFor(ranges, n, x) <==> Holds(r, n, x) || AsksFor(ranges[1..], n, x) {
        AsksForFirst(ranges, n, x);
      }
    }
  }

  /** n was skipped among 256 or fewer, and is x on the wire. */
  ghost predicate SkippedAs(highs: seq<int>, n: int, x: int) {
    SkippedNear(highs, n) && n % TWO16 == x
  }

  /** Over a run, the streamer is asked for exactly the numbers skipped, 256 or fewer at a time, modulo 2^16. */
  lemma StreamerIsAskedForTheSkipped(c: Codec, st: Stream, ts: seq<Turn>, audioSsrc: int, x: int)
    requires 0 <= st.ssrc < TWO32
    ensures x in N.AllAsked(Packets(st.ssrc, Ranges(c, st, START, ts)), st.ssrc, audioSsrc) <==>
      exists n :: SkippedAs(Highs(c, st, START, ts), n, x)
  {
    hide Ranges, Highs, N.AllAsked, Packets, SkippedNear, Asks;
    var ranges, highs := Ranges(c, st, START, ts), Highs(c, st, START, ts);
    PacketsAsk(st.ssrc, ranges, audioSsrc, x);
    if n :| AsksFor(ranges, n, x) {
      SkippedAreAskedForOnce(c, st, ts, n);
      assert SkippedAs(highs, n, x);
    }
    if n :| SkippedAs(highs, n, x) {
      SkippedAreAskedForOnce(c, st, ts, n);
      assert AsksFor(ranges, n, x);
    }
  }
}
