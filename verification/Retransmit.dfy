/**
 RetransmitBuffer (src/streamer/rtp_packetizer.cpp): the bounded cache a NACK is served from, and
 the unbounded log of sent packets it stands for.
 */
module Retransmit {
  import opened Bytes
  import opened Rtp

  datatype Entry = Entry(packet: Packet, sentAt: int)

  /** `order` lists the keys of `packets` by insertion. */
  datatype Cache = Cache(packets: map<int, Entry>, order: seq<int>)

  const EMPTY := Cache(map[], [])

  function Evicted(capacity: nat, b: Cache): Cache
    decreases |b.order|
  {
    if |b.order| <= capacity then b
    else Evicted(capacity, Cache(b.packets - {b.order[0]}, b.order[1..]))
  }

  function Recorded(capacity: nat, b: Cache, s: int, e: Entry): Cache {
    Evicted(capacity, Cache(b.packets[s := e], if s in b.packets then b.order else b.order + [s]))
  }

  function Retained(b: Cache, s: int): Option<Entry> {
    if s in b.packets then Some(b.packets[s]) else None
  }

  class RetransmitBuffer {
    const capacity: nat
    var packets: map<int, Entry>
    var order: seq<int>

    ghost function State(): Cache
      reads this
    {
      Cache(packets, order)
    }

    constructor (capacity: nat)
      ensures this.capacity == capacity && State() == EMPTY
    {
      this.capacity := capacity;
      packets, order := map[], [];
    }

    method Record(s: int, packet: Packet, now: int)
      modifies this
      ensures State() == Recorded(capacity, old(State()), s, Entry(packet, now))
    {
      var inserted := s !in packets;
      packets := packets[s := Entry(packet, now)];
      if inserted {
        order := order + [s];
      }
      ghost var result := Evicted(capacity, State());
      while |order| > capacity
        invariant result == Evicted(capacity, State())
        decreases |order|
      {
        packets := packets - {order[0]};
        order := order[1..];
      }
    }

    method Get(s: int) returns (e: Option<Entry>)
      ensures e == Retained(State(), s)
    {
      e := if s in packets then Some(packets[s]) else None;
    }

    method Clear()
      modifies this
      ensures State() == EMPTY
    {
      packets, order := map[], [];
    }
  }

  // ------------------------------------------------------------------ any records at all

  ghost predicate Distinct(order: seq<int>) {
    forall i, j :: 0 <= i < j < |order| ==> order[i] != order[j]
  }

  /** No number is listed twice, and the list is exactly the map's keys. */
  ghost predicate Tidy(b: Cache) {
    Distinct(b.order) && forall s :: s in b.order <==> s in b.packets
  }

  lemma {:induction false} EvictKeepsTidy(capacity: nat, b: Cache)
    requires Tidy(b)
    ensures Tidy(Evicted(capacity, b)) && |Evicted(capacity, b).order| <= capacity
    decreases |b.order|
  {
    if |b.order| > capacity {
      var b' := Cache(b.packets - {b.order[0]}, b.order[1..]);
      forall s ensures s in b'.order <==> s in b'.packets {
        assert b.order == [b.order[0]] + b'.order;
        assert s in b.order <==> s == b.order[0] || s in b'.order;
      }
      EvictKeepsTidy(capacity, b');
    }
  }

  lemma RecordKeepsTidy(capacity: nat, b: Cache, s: int, e: Entry)
    requires Tidy(b)
    ensures Tidy(Recorded(capacity, b, s, e)) && |Recorded(capacity, b, s, e).order| <= capacity
  {
    EvictKeepsTidy(capacity, Cache(b.packets[s := e], if s in b.packets then b.order else b.order + [s]));
  }

  // ------------------------------------------------------------------ consecutive numbers

  datatype Record = Record(s: int, e: Entry)

  /** The cache after recording `log` since the last clear. */
  function After(capacity: nat, log: seq<Record>): Cache {
    if log == [] then EMPTY
    else
      var m := |log| - 1;
      Recorded(capacity, After(capacity, log[..m]), log[m].s, log[m].e)
  }

  /** Numbered s0, s0 + 1, ... modulo 2^16. */
  ghost predicate Consecutive(log: seq<Record>, s0: int) {
    forall i :: 0 <= i < |log| ==> log[i].s == (s0 + i) % TWO16
  }

  /** The newest place in the log recorded under s, or -1. */
  function Newest(log: seq<Record>, s: int): (i: int)
    ensures -1 <= i < |log|
    ensures i >= 0 ==> log[i].s == s
    ensures forall j :: i < j < |log| ==> log[j].s != s
  {
    if log == [] then -1
    else if log[|log| - 1].s == s then |log| - 1
    else Newest(log[..|log| - 1], s)
  }

  /** How many of the newest n records have numbers of their own and fit the cache. */
  function Span(capacity: nat, n: nat): nat {
    Min(n, Min(capacity, TWO16))
  }

  /** Where the listed numbers start in the log: a full cycle is listed as first recorded. */
  function ListedFrom(capacity: nat, n: nat): nat {
    if capacity < TWO16 then n - Span(capacity, n) else 0
  }

  /** The numbers listed are those of the records from place `from` on. */
  ghost predicate Listed(order: seq<int>, log: seq<Record>, from: nat) {
    from + |order| <= |log| && forall i :: 0 <= i < |order| ==> order[i] == log[from + i].s
  }

  /** The map holds the records from place lo on, and nothing older. */
  ghost predicate Stored(packets: map<int, Entry>, log: seq<Record>, lo: nat) {
    && (forall i :: lo <= i < |log| ==> log[i].s in packets && packets[log[i].s] == log[i].e)
    && (forall s :: s in packets ==> lo <= Newest(log, s))
  }

  ghost predicate Window(capacity: nat, log: seq<Record>, b: Cache) {
    var n := |log|;
    && |b.order| == Span(capacity, n)
    && Listed(b.order, log, ListedFrom(capacity, n))
    && Stored(b.packets, log, n - Span(capacity, n))
  }

  lemma SameNumber(s0: int, i: int, j: int)
    requires i < j
    ensures (s0 + i) % TWO16 == (s0 + j) % TWO16 <==> (j - i) % TWO16 == 0
  {
  }

  lemma NewestNext(log: seq<Record>, r: Record, s: int)
    ensures Newest(log + [r], s) == if r.s == s then |log| else Newest(log, s)
  {
    assert (log + [r])[..|log|] == log;
  }

  /** The number is still listed: a full cycle of 2^16 back. */
  lemma WindowAgain(capacity: nat, log: seq<Record>, s0: int, b: Cache, r: Record)
    requires Window(capacity, log, b) && Consecutive(log, s0) && r.s == (s0 + |log|) % TWO16 && r.s in b.packets
    ensures Window(capacity, log + [r], Cache(b.packets[r.s := r.e], b.order))
    ensures Span(capacity, |log|) == TWO16
  {
    var n := |log|;
    var log' := log + [r];
    var i := Newest(log, r.s);
    SameNumber(s0, i, n);
    assert n - i == TWO16;
    forall k | n + 1 - TWO16 <= k < n
      ensures log[k].s != r.s
    {
      SameNumber(s0, k, n);
    }
    forall s ensures Newest(log', s) == if r.s == s then n else Newest(log, s) { NewestNext(log, r, s); }
    forall s | s in b.packets && s != r.s
      ensures n + 1 - TWO16 <= Newest(log', s)
    {
      assert n - TWO16 <= Newest(log, s);
      assert log[i].s == r.s;
    }
  }

  /** The cache holds the log from place lo on, each record under a number of its own. */
  ghost predicate Held(log: seq<Record>, b: Cache, lo: nat) {
    lo + |b.order| == |log| && Listed(b.order, log, lo) && Stored(b.packets, log, lo)
  }

  lemma WindowIsHeld(capacity: nat, log: seq<Record>, b: Cache)
    requires Window(capacity, log, b) && Span(capacity, |log|) < TWO16
    ensures Held(log, b, |log| - Span(capacity, |log|))
  {
    hide Listed, Stored;
  }

  lemma HeldIsWindow(capacity: nat, log: seq<Record>, b: Cache, lo: nat)
    requires Held(log, b, lo) && lo == |log| - Span(capacity, |log|) && lo == ListedFrom(capacity, |log|)
    ensures Window(capacity, log, b)
  {
    hide Listed, Stored;
  }

  lemma HeldGrow(log: seq<Record>, b: Cache, lo: nat, r: Record)
    requires Held(log, b, lo) && r.s !in b.packets
    ensures Held(log + [r], Cache(b.packets[r.s := r.e], b.order + [r.s]), lo)
  {
    hide Stored;
    StoredMore(b.packets, log, lo, r);
  }

  lemma HeldShrink(log: seq<Record>, b: Cache, lo: nat, s0: int)
    requires Held(log, b, lo) && lo < |log| <= lo + TWO16 && Consecutive(log, s0)
    ensures Held(log, Cache(b.packets - {b.order[0]}, b.order[1..]), lo + 1)
  {
    ListedTail(b.order, log, lo);
    StoredLess(b.packets, log, lo, s0);
    hide Stored, Listed;
  }

  /** There was room. */
  lemma WindowGrow(capacity: nat, log: seq<Record>, b: Cache, r: Record)
    requires Window(capacity, log, b) && r.s !in b.packets && Span(capacity, |log|) < capacity
    requires Span(capacity, |log|) < TWO16
    ensures Window(capacity, log + [r], Cache(b.packets[r.s := r.e], b.order + [r.s]))
  {
    hide Window, Held;
    WindowIsHeld(capacity, log, b);
    HeldGrow(log, b, 0, r);
    HeldIsWindow(capacity, log + [r], Cache(b.packets[r.s := r.e], b.order + [r.s]), 0);
  }

  lemma Fresh(capacity: nat, log: seq<Record>, s0: int, b: Cache, s: int)
    requires Window(capacity, log, b) && Consecutive(log, s0) && s == (s0 + |log|) % TWO16 && s !in b.packets
    ensures Span(capacity, |log|) < TWO16
  {
    if Span(capacity, |log|) == TWO16 {
      CycleBack(log, s0, s);
      assert false;
    }
  }

  lemma CycleBack(log: seq<Record>, s0: int, s: int)
    requires Consecutive(log, s0) && s == (s0 + |log|) % TWO16 && |log| >= TWO16
    ensures log[|log| - TWO16].s == s
  {
    SameNumber(s0, |log| - TWO16, |log|);
  }

  lemma WindowStep(capacity: nat, log: seq<Record>, s0: int, b: Cache, r: Record)
    requires Window(capacity, log, b) && Consecutive(log, s0) && r.s == (s0 + |log|) % TWO16
    ensures Window(capacity, log + [r], Recorded(capacity, b, r.s, r.e))
  {
    hide Window;
    WindowOrder(capacity, log, b);
    if r.s in b.packets {
      WindowAgain(capacity, log, s0, b, r);
    } else {
      Fresh(capacity, log, s0, b, r.s);
      var b1 := Cache(b.packets[r.s := r.e], b.order + [r.s]);
      if Span(capacity, |log|) == capacity {
        var b2 := Cache(b1.packets - {b1.order[0]}, b1.order[1..]);
        assert Evicted(capacity, b2) == b2;
        assert Recorded(capacity, b, r.s, r.e) == b2;
        WindowFull(capacity, log, s0, b, r);
      } else {
        WindowGrow(capacity, log, b, r);
      }
    }
  }

  lemma WindowOrder(capacity: nat, log: seq<Record>, b: Cache)
    requires Window(capacity, log, b)
    ensures |b.order| == Span(capacity, |log|)
  {
  }

  /** The cache was full: the oldest record leaves. */
  lemma WindowFull(capacity: nat, log: seq<Record>, s0: int, b: Cache, r: Record)
    requires Window(capacity, log, b) && Consecutive(log, s0) && r.s == (s0 + |log|) % TWO16 && r.s !in b.packets
    requires Span(capacity, |log|) == capacity < TWO16
    ensures var b1 := Cache(b.packets[r.s := r.e], b.order + [r.s]);
      Window(capacity, log + [r], Cache(b1.packets - {b1.order[0]}, b1.order[1..]))
  {
    hide Window, Held, Consecutive;
    var lo := |log| - capacity;
    var b1 := Cache(b.packets[r.s := r.e], b.order + [r.s]);
    WindowIsHeld(capacity, log, b);
    HeldGrow(log, b, lo, r);
    ConsecutiveMore(log, s0, r);
    HeldShrink(log + [r], b1, lo, s0);
    HeldIsWindow(capacity, log + [r], Cache(b1.packets - {b1.order[0]}, b1.order[1..]), lo + 1);
  }

  lemma ConsecutiveMore(log: seq<Record>, s0: int, r: Record)
    requires Consecutive(log, s0) && r.s == (s0 + |log|) % TWO16
    ensures Consecutive(log + [r], s0)
  {
  }

  lemma ListedTail(order: seq<int>, log: seq<Record>, from: nat)
    requires Listed(order, log, from) && order != []
    ensures order[0] == log[from].s && Listed(order[1..], log, from + 1)
  {
    forall i | 0 <= i < |order[1..]|
      ensures order[1..][i] == log[from + 1 + i].s
    {
      assert order[i + 1] == log[from + (i + 1)].s;
    }
  }

  lemma StoredMore(packets: map<int, Entry>, log: seq<Record>, lo: nat, r: Record)
    requires Stored(packets, log, lo) && lo <= |log| && r.s !in packets
    ensures Stored(packets[r.s := r.e], log + [r], lo)
  {
    hide Newest;
    forall s | s in packets[r.s := r.e] ensures lo <= Newest(log + [r], s) { NewestNext(log, r, s); }
  }

  lemma StoredLess(packets: map<int, Entry>, log: seq<Record>, lo: nat, s0: int)
    requires Stored(packets, log, lo) && lo < |log| <= lo + TWO16 && Consecutive(log, s0)
    ensures Stored(packets - {log[lo].s}, log, lo + 1)
  {
    var gone := log[lo].s;
    forall i | lo + 1 <= i < |log|
      ensures log[i].s != gone
    {
      SameNumber(s0, lo, i);
    }
    forall s | s in packets - {gone}
      ensures lo + 1 <= Newest(log, s)
    {
      assert s in packets;
    }
  }

  lemma ConsecutiveSplit(log: seq<Record>, s0: int)
    requires Consecutive(log, s0) && log != []
    ensures var m := |log| - 1; Consecutive(log[..m], s0) && log[m].s == (s0 + m) % TWO16
  {
  }

  lemma {:induction false} AfterIsWindow(capacity: nat, log: seq<Record>, s0: int)
    requires Consecutive(log, s0)
    ensures Window(capacity, log, After(capacity, log)) && Tidy(After(capacity, log))
  {
    if log != [] {
      hide Consecutive, Window, Tidy, Recorded;
      var m := |log| - 1;
      assert log[..m] + [log[m]] == log;
      ConsecutiveSplit(log, s0);
      AfterIsWindow(capacity, log[..m], s0);
      WindowStep(capacity, log[..m], s0, After(capacity, log[..m]), log[m]);
      RecordKeepsTidy(capacity, After(capacity, log[..m]), log[m].s, log[m].e);
    }
  }

  /**
   However long the log and however often the numbers wrap: the cache answers with the newest record
   under s if that is among the last `capacity` ones, and with nothing otherwise.
   */
  lemma CacheRefinesLog(capacity: nat, log: seq<Record>, s0: int, s: int)
    requires Consecutive(log, s0)
    ensures var i := Newest(log, s);
      Retained(After(capacity, log), s) ==
        if i >= 0 && |log| - i <= capacity then Some(log[i].e) else None
    ensures Tidy(After(capacity, log))
  {
    AfterIsWindow(capacity, log, s0);
    var i := Newest(log, s);
    if i >= 0 && i + TWO16 < |log| {
      CycleBack(log[..i + TWO16], s0, log[i + TWO16].s);
      assert false;
    }
  }
}
