/**
 The send pacer (src/streamer/pacer.hpp): one token bucket shared by every stream. Times are in
 seconds; rates, tokens and times are real numbers, so rounding is not part of this model.
 */
module Pacer {
  import opened Bytes

  const FLOOR: real := 32768.0
  const SLICE: real := 0.002

  function MinR(a: real, b: real): real { if a < b then a else b }

  function MaxR(a: real, b: real): real { if a < b then b else a }

  datatype Bucket = Bucket(rate: real, burst: real, tokens: real, lastRefill: real)

  function Start(now: real): Bucket { Bucket(0.0, FLOOR, FLOOR, now) }

  /** A quarter more than the nominal rate; 10 ms of it at once, or 32 KB. */
  function RateOf(kbps: int): real { kbps as real * 1000.0 / 8.0 * 1.25 }

  function BurstOf(rate: real): real { MaxR(FLOOR, rate / 100.0) }

  function Rerated(b: Bucket, kbps: int): Bucket {
    Bucket(RateOf(kbps), BurstOf(RateOf(kbps)), MinR(b.tokens, BurstOf(RateOf(kbps))), b.lastRefill)
  }

  function Refilled(b: Bucket, now: real): Bucket {
    b.(tokens := MinR(b.burst, b.tokens + (now - b.lastRefill) * b.rate), lastRefill := now)
  }

  /** What one look at the bucket comes to. */
  datatype Outcome = Granted | Expired | Short

  function Outcomes(b: Bucket, len: real, now: real, deadline: Option<real>): Outcome {
    if b.rate <= 0.0 then Granted
    else if deadline.Some? && now >= deadline.value then Expired
    else if Refilled(b, now).tokens >= len then Granted
    else Short
  }

  function Looked(b: Bucket, len: real, now: real, deadline: Option<real>): Bucket {
    if b.rate <= 0.0 || (deadline.Some? && now >= deadline.value) then b
    else
      var r := Refilled(b, now);
      if r.tokens >= len then r.(tokens := r.tokens - len) else r
  }

  // ------------------------------------------------------------------------- the sum

  /** The nominal rates of all streams together. */
  ghost function Sum(kbps: map<int, int>): int
    decreases |kbps|
  {
    if kbps == map[] then 0
    else
      var i := AnyKey(kbps);
      kbps[i] + Sum(kbps - {i})
  }

  ghost function AnyKey(kbps: map<int, int>): (i: int)
    requires kbps != map[]
    ensures i in kbps && |kbps - {i}| < |kbps|
  {
    assert (forall i :: i !in kbps) ==> kbps == map[];
    var i :| i in kbps;
    assert kbps.Keys == (kbps - {i}).Keys + {i};
    i
  }

  /** In whatever order they are added up. */
  lemma {:induction false} SumFrom(kbps: map<int, int>, x: int)
    requires x in kbps
    ensures Sum(kbps) == kbps[x] + Sum(kbps - {x})
    decreases |kbps|
  {
    var i := AnyKey(kbps);
    SumUnfolds(kbps);
    if i != x {
      hide Sum, AnyKey;
      WithoutKey(kbps, x);
      SumFrom(kbps - {i}, x);
      SumFrom(kbps - {x}, i);
      assert kbps - {i} - {x} == kbps - {x} - {i};
    }
  }

  lemma SumUnfolds(kbps: map<int, int>)
    requires kbps != map[]
    ensures Sum(kbps) == kbps[AnyKey(kbps)] + Sum(kbps - {AnyKey(kbps)})
  {
    hide AnyKey;
  }

  lemma WithoutKey(kbps: map<int, int>, x: int)
    requires x in kbps
    ensures |kbps - {x}| < |kbps|
  {
    assert kbps.Keys == (kbps - {x}).Keys + {x};
  }

  /** The summing loop of set_stream_rate: the map is gone through in an order of its own. */
  method AddedUp(kbps: map<int, int>) returns (total: int)
    ensures total == Sum(kbps)
  {
    var rest := kbps;
    total := 0;
    while rest != map[]
      invariant total + Sum(rest) == Sum(kbps)
      decreases |rest|
    {
      assert (forall i :: i !in rest) ==> rest == map[];
      var i :| i in rest;
      SumFrom(rest, i);
      assert rest.Keys == (rest - {i}).Keys + {i};
      total := total + rest[i];
      rest := rest - {i};
    }
  }

  // ------------------------------------------------------------------------ the pacer

  class Pacer {
    var streamKbps: map<int, int>
    var rate: real
    var burst: real
    var tokens: real
    var lastRefill: real

    ghost function State(): Bucket
      reads this
    {
      Bucket(rate, burst, tokens, lastRefill)
    }

    constructor (now: real)
      ensures State() == Start(now) && streamKbps == map[]
    {
      streamKbps := map[];
      rate, burst, tokens, lastRefill := 0.0, FLOOR, FLOOR, now;
    }

    method SetStreamRate(index: int, kbps: int)
      modifies this
      ensures streamKbps == old(streamKbps)[index := kbps]
      ensures State() == Rerated(old(State()), Sum(streamKbps))
    {
      hide Sum;
      streamKbps := streamKbps[index := kbps];
      var total := AddedUp(streamKbps);
      rate := total as real * 1000.0 / 8.0 * 1.25;
      burst := MaxR(FLOOR, rate / 100.0);
      tokens := MinR(tokens, burst);
    }

    /** One turn of the loop in consume, under the lock; `need` is how long a full refill would take. */
    method Look(len: real, now: real, deadline: Option<real>) returns (o: Outcome, need: real)
      modifies this
      ensures o == Outcomes(old(State()), len, now, deadline)
      ensures State() == Looked(old(State()), len, now, deadline) && streamKbps == old(streamKbps)
      ensures o == Short ==> need * rate == len - tokens
    {
      need := 0.0;
      if rate <= 0.0 { return Granted, 0.0; }
      if deadline.Some? && now >= deadline.value { return Expired, 0.0; }
      var dt := now - lastRefill;
      lastRefill := now;
      tokens := MinR(burst, tokens + dt * rate);
      if tokens >= len {
        tokens := tokens - len;
        return Granted, 0.0;
      }
      need := (len - tokens) / rate;
      QuotientBack(len - tokens, rate);
      o := Short;
    }

    /**
     consume, for a consumer that is alone and has no deadline. Each sleep lasts as long as asked for
     and `late(i)` longer. It ends, after at most as many turns as `Turns` allows, and takes no more
     than was there and has flowed in.
     */
    method ConsumeAlone(len: real, start: real, late: nat -> real) returns (turns: nat, now: real)
      requires Healthy(State(), start) && 0.0 <= len <= FLOOR && forall i :: late(i) >= 0.0
      modifies this
      ensures rate == old(rate) && burst == old(burst) && lastRefill == now >= start
      ensures 0.0 <= tokens <= burst - len
      ensures tokens + len <= old(tokens) + (now - old(lastRefill)) * rate
      ensures turns <= Turns(old(State()), len, start)
    {
      hide Turns, Refilled, Outcomes, Looked;
      InflowBegins(State());
      now := start;
      turns := 0;
      var need;
      var o := Short;
      while o == Short
        invariant rate == old(rate) && burst == old(burst) && start <= now
        invariant o == Short ==> Healthy(State(), now)
        invariant o == Short ==> turns + Turns(State(), len, now) <= old(Turns(State(), len, start))
        invariant o == Short ==> Inflow(old(State()), State(), 0.0)
        invariant o == Granted ==> lastRefill == now && 0.0 <= tokens <= burst - len
        invariant o == Granted ==> Inflow(old(State()), State(), len) && turns <= old(Turns(State(), len, start))
        invariant o != Expired
        decreases if o == Short then Turns(State(), len, now) else 0
      {
        ghost var b := State();
        o, need := Look(len, now, None);
        turns := turns + 1;
        LookFlows(old(State()), b, len, now);
        if o == Short {
          LookShort(b, len, now);
          var sleep := MinR(need, SLICE) + late(turns);
          SleepHelps(b, len, now, need, sleep);
          now := now + sleep;
        }
      }
    }
  }

  lemma QuotientBack(x: real, y: real)
    requires y > 0.0
    ensures x / y * y == x
  {
  }

  /** A positive rate, tokens within the burst, and a clock that has not gone back. */
  ghost predicate Healthy(b: Bucket, now: real) {
    b.rate > 0.0 && FLOOR <= b.burst && 0.0 <= b.tokens <= b.burst && b.lastRefill <= now
  }

  /** From b to b', `taken` and what is left come out of what was there and what has flowed in. */
  ghost predicate Inflow(b: Bucket, b': Bucket, taken: real) {
    b'.rate == b.rate && b'.tokens + taken <= b.tokens + (b'.lastRefill - b.lastRefill) * b.rate
  }

  /** One look if nothing is short; else one more than the slices that cover the deficit, and another. */
  ghost function Visits(deficit: real, slice: real): (n: nat)
    ensures n >= 1
  {
    if deficit <= 0.0 || slice <= 0.0 then 1 else 2 + (deficit / slice).Floor
  }

  ghost function Turns(b: Bucket, len: real, now: real): (n: nat)
    ensures n >= 1
  {
    Visits(len - Refilled(b, now).tokens, b.rate * SLICE)
  }

  lemma Product(x: real, y: real)
    requires x >= 0.0 && y >= 0.0
    ensures x * y >= 0.0
  {
  }

  lemma RefillBounds(b: Bucket, now: real)
    requires b.rate >= 0.0 && b.lastRefill <= now && b.tokens <= b.burst
    ensures b.tokens <= Refilled(b, now).tokens <= b.burst
    ensures Refilled(b, now).tokens <= b.tokens + (now - b.lastRefill) * b.rate
  {
    Product(now - b.lastRefill, b.rate);
  }

  lemma LookFlows(b0: Bucket, b: Bucket, len: real, now: real)
    requires Healthy(b, now) && Inflow(b0, b, 0.0) && len >= 0.0
    ensures var b' := Looked(b, len, now, None);
      && b'.rate == b.rate && b'.burst == b.burst && b'.lastRefill == now && 0.0 <= b'.tokens <= b.burst
      && (Outcomes(b, len, now, None) == Granted ==> b'.tokens <= b.burst - len && Inflow(b0, b', len))
      && (Outcomes(b, len, now, None) == Short ==> Inflow(b0, b', 0.0))
      && Outcomes(b, len, now, None) != Expired
  {
    RefillBounds(b, now);
    assert (b.lastRefill - b0.lastRefill) * b.rate + (now - b.lastRefill) * b.rate == (now - b0.lastRefill) * b.rate;
  }

  lemma FloorDrop(q: real, q': real, slice: real, deficit: real, deficit': real)
    requires slice > 0.0 && q * slice == deficit && q' * slice == deficit' && deficit' <= deficit - slice
    ensures q'.Floor + 1 <= q.Floor
  {
    assert (q' - q + 1.0) * slice == q' * slice - q * slice + slice;
    Factor(q' - q + 1.0, slice);
  }

  lemma Factor(x: real, y: real)
    requires y > 0.0 && x * y <= 0.0
    ensures x <= 0.0
  {
  }

  lemma LookShort(b: Bucket, len: real, now: real)
    requires Outcomes(b, len, now, None) == Short
    ensures Looked(b, len, now, None) == Refilled(b, now) && Refilled(b, now).tokens < len
  {
  }

  lemma InflowBegins(b: Bucket)
    ensures Inflow(b, b, 0.0)
  {
  }

  lemma SlicesDrop(deficit: real, deficit': real, slice: real)
    requires slice > 0.0 && 0.0 < deficit' <= deficit - slice
    ensures (deficit' / slice).Floor + 1 <= (deficit / slice).Floor
  {
    FloorDrop(deficit / slice, deficit' / slice, slice, deficit, deficit');
  }

  lemma SleepHelps(b: Bucket, len: real, now: real, need: real, sleep: real)
    requires Healthy(b, now) && 0.0 <= len <= FLOOR && Refilled(b, now).tokens < len
    requires need * b.rate == len - Refilled(b, now).tokens && sleep >= MinR(need, SLICE)
    ensures sleep > 0.0
    ensures Turns(Refilled(b, now), len, now + sleep) + 1 <= Turns(b, len, now)
  {
    var r := Refilled(b, now);
    var deficit := len - r.tokens;
    NeedPositive(need, b.rate);
    SleepFills(need, sleep, b.rate, deficit);
    TokensAfter(b, now, sleep);
    SliceIsPositive(b.rate);
    hide Refilled, Visits;
    VisitsDrop(deficit, len - Refilled(r, now + sleep).tokens, b.rate * SLICE);
  }

  lemma VisitsDrop(deficit: real, deficit': real, slice: real)
    requires slice > 0.0 && deficit > 0.0 && (deficit' <= 0.0 || deficit' <= deficit - slice)
    ensures Visits(deficit', slice) + 1 <= Visits(deficit, slice)
  {
    if deficit' > 0.0 {
      SlicesDrop(deficit, deficit', slice);
    }
  }

  lemma SliceIsPositive(rate: real)
    requires rate > 0.0
    ensures rate * SLICE > 0.0
  {
  }

  lemma TokensAfter(b: Bucket, now: real, sleep: real)
    ensures var r := Refilled(b, now); var r' := Refilled(r, now + sleep);
      r'.tokens == MinR(b.burst, r.tokens + sleep * b.rate) && r.rate == b.rate
  {
  }

  lemma NeedPositive(need: real, rate: real)
    requires rate > 0.0 && need * rate > 0.0
    ensures need > 0.0
  {
  }

  /** A sleep of min(need, SLICE) or more covers the deficit or a slice's worth of it. */
  lemma SleepFills(need: real, sleep: real, rate: real, deficit: real)
    requires rate > 0.0 && need * rate == deficit && sleep >= MinR(need, SLICE)
    ensures sleep * rate >= deficit || sleep * rate >= rate * SLICE
  {
    Product(sleep - MinR(need, SLICE), rate);
    assert (sleep - MinR(need, SLICE)) * rate == sleep * rate - MinR(need, SLICE) * rate;
  }

  /** There comes a time at which a packet is granted, if and only if it is no longer than the burst. */
  lemma GrantedInTheEnd(b: Bucket, len: real)
    requires Healthy(b, b.lastRefill)
    ensures (exists now :: now >= b.lastRefill && Outcomes(b, len, now, None) == Granted) <==> len <= b.burst
  {
    if len <= b.burst {
      var d := b.burst / b.rate;
      assert d * b.rate == b.burst;
      var now := b.lastRefill + d;
      assert now >= b.lastRefill && Outcomes(b, len, now, None) == Granted by {
        Quotient(0.0, b.burst, b.rate);
        assert Refilled(b, now).tokens == b.burst;
      }
    }
  }

  lemma Quotient(x: real, y: real, z: real)
    requires x <= y && z > 0.0
    ensures x / z <= y / z
  {
  }

  // ------------------------------------------------------------------------ whole runs

  /** Any consumer looks, or any stream's rate is updated. */
  datatype Event = SetRate(index: int, kbps: int) | Ask(len: real, now: real, deadline: Option<real>)

  datatype System = System(streams: map<int, int>, bucket: Bucket)

  ghost function After(w: System, e: Event): System {
    match e
    case SetRate(i, k) => System(w.streams[i := k], Rerated(w.bucket, Sum(w.streams[i := k])))
    case Ask(len, now, deadline) => System(w.streams, Looked(w.bucket, len, now, deadline))
  }

  ghost function Run(w: System, es: seq<Event>): System {
    if es == [] then w else After(Run(w, es[..|es| - 1]), es[|es| - 1])
  }

  function Now(t: real, es: seq<Event>): real {
    if es == [] then t
    else if es[|es| - 1].Ask? then es[|es| - 1].now else Now(t, es[..|es| - 1])
  }

  /** Clock readings are taken under the lock, so they do not go back; lengths are not negative. */
  ghost predicate Clocked(t: real, es: seq<Event>) {
    es == [] ||
    (Clocked(t, es[..|es| - 1]) &&
     (es[|es| - 1].Ask? ==> es[|es| - 1].now >= Now(t, es[..|es| - 1]) && es[|es| - 1].len >= 0.0))
  }

  ghost predicate Sane(b: Bucket, now: real) {
    0.0 <= b.tokens <= b.burst == BurstOf(b.rate) && b.lastRefill <= now
  }

  /** The bytes that the bucket has granted. */
  ghost function Taken(w: System, es: seq<Event>): real {
    if es == [] then 0.0
    else
      var m := |es| - 1;
      var b := Run(w, es[..m]).bucket;
      Taken(w, es[..m]) +
      if es[m].Ask? && Outcomes(b, es[m].len, es[m].now, es[m].deadline) == Granted then es[m].len else 0.0
  }

  /** Pacing is on throughout, at no more than rate r. */
  ghost predicate Metered(w: System, es: seq<Event>, r: real) {
    0.0 < Run(w, es).bucket.rate <= r && (es == [] || Metered(w, es[..|es| - 1], r))
  }

  lemma StartIsSane(now: real)
    ensures Sane(Start(now), now)
  {
  }

  lemma {:induction false} SaneKept(w: System, t: real, es: seq<Event>)
    requires Sane(w.bucket, t) && Clocked(t, es)
    ensures Sane(Run(w, es).bucket, Now(t, es))
  {
    if es != [] {
      var m := |es| - 1;
      SaneKept(w, t, es[..m]);
      var b := Run(w, es[..m]).bucket;
      if es[m].Ask? && b.rate > 0.0 {
        RefillBounds(b, es[m].now);
      }
    }
  }

  /** From the pacer's construction on, the tokens stay within the burst, at any rates. */
  lemma TokensStayWithinBurst(start: real, es: seq<Event>)
    requires Clocked(start, es)
    ensures var b := Run(System(map[], Start(start)), es).bucket;
      0.0 <= b.tokens <= b.burst == BurstOf(b.rate)
  {
    StartIsSane(start);
    SaneKept(System(map[], Start(start)), start, es);
  }

  /** What flows in at rate r. */
  function Flow(r: real, dt: real): real { r * dt }

  lemma FlowAdds(r: real, dt: real, dt': real)
    ensures Flow(r, dt) + Flow(r, dt') == Flow(r, dt + dt')
  {
  }

  lemma FlowBounds(dt: real, rate: real, r: real)
    requires dt >= 0.0 && 0.0 < rate <= r
    ensures 0.0 <= dt * rate <= Flow(r, dt)
    ensures BurstOf(rate) <= BurstOf(r)
  {
    Product(dt, rate);
    Product(dt, r - rate);
  }

  /** What has been taken in the window that began at t0 and what is left are paid for. */
  ghost predicate Paid(b: Bucket, taken: real, t0: real, r: real) {
    || (b.lastRefill <= t0 && taken == 0.0)
    || (b.lastRefill >= t0 && taken + b.tokens <= BurstOf(r) + Flow(r, b.lastRefill - t0))
  }

  lemma LookPaid(b: Bucket, taken: real, t0: real, r: real, e: Event)
    requires Paid(b, taken, t0, r) && e.Ask? && e.now >= t0 && Sane(b, e.now) && 0.0 < b.rate <= r && e.len >= 0.0
    ensures Paid(Looked(b, e.len, e.now, e.deadline),
                 taken + if Outcomes(b, e.len, e.now, e.deadline) == Granted then e.len else 0.0, t0, r)
  {
    RefillBounds(b, e.now);
    FlowBounds(e.now - b.lastRefill, b.rate, r);
    FlowBounds(e.now - t0, b.rate, r);
    FlowAdds(r, b.lastRefill - t0, e.now - b.lastRefill);
    var tokens := Refilled(b, e.now).tokens;
    assert e.now - b.lastRefill + (b.lastRefill - t0) == e.now - t0;
    hide Flow, BurstOf, Refilled;
    assert taken + tokens <= BurstOf(r) + Flow(r, e.now - t0);
    LookedIs(b, e);
  }

  lemma LookedIs(b: Bucket, e: Event)
    requires e.Ask? && b.rate > 0.0
    ensures var b' := Looked(b, e.len, e.now, e.deadline); var o := Outcomes(b, e.len, e.now, e.deadline);
      if o == Expired then b' == b
      else b'.lastRefill == e.now && b'.tokens == Refilled(b, e.now).tokens - if o == Granted then e.len else 0.0
  {
  }

  lemma RatePaid(b: Bucket, taken: real, t0: real, r: real, kbps: int)
    requires Paid(b, taken, t0, r)
    ensures Paid(Rerated(b, kbps), taken, t0, r)
  {
    hide Flow;
  }

  lemma PaidBounds(b: Bucket, taken: real, t0: real, r: real, now: real)
    requires Paid(b, taken, t0, r) && Sane(b, now) && now >= t0 && r > 0.0
    ensures taken <= BurstOf(r) + Flow(r, now - t0)
  {
    FlowAdds(r, b.lastRefill - t0, now - b.lastRefill);
    FlowBounds(now - b.lastRefill, r, r);
    FlowBounds(now - t0, r, r);
    assert b.lastRefill - t0 + (now - b.lastRefill) == now - t0;
    hide Flow;
  }

  lemma {:induction false} AlwaysPaid(w: System, t0: real, es: seq<Event>, r: real)
    requires Sane(w.bucket, t0) && Clocked(t0, es) && Metered(w, es, r)
    ensures Paid(Run(w, es).bucket, Taken(w, es), t0, r) && Now(t0, es) >= t0
  {
    hide Paid, Sane, Looked, Rerated, Outcomes;
    if es == [] {
      PaidAtFirst(w.bucket, t0, r);
    } else {
      var m := |es| - 1;
      var b := Run(w, es[..m]).bucket;
      AlwaysPaid(w, t0, es[..m], r);
      SaneKept(w, t0, es[..m]);
      match es[m]
      case Ask(len, now, deadline) =>
        SaneLater(b, Now(t0, es[..m]), now);
        LookPaid(b, Taken(w, es[..m]), t0, r, es[m]);
      case SetRate(i, k) =>
        RatePaid(b, Taken(w, es[..m]), t0, r, Sum(Run(w, es[..m]).streams[i := k]));
    }
  }

  lemma PaidAtFirst(b: Bucket, t0: real, r: real)
    requires Sane(b, t0)
    ensures Paid(b, 0.0, t0, r)
  {
  }

  lemma SaneLater(b: Bucket, now: real, now': real)
    requires Sane(b, now) && now <= now'
    ensures Sane(b, now')
  {
  }

  lemma MeteredPositive(w: System, es: seq<Event>, r: real)
    requires Metered(w, es, r)
    ensures r > 0.0
  {
    hide Run;
  }

  /**
   In any window in which the rate stays positive and at most r, under any interleaving of consumers
   and rate updates, no more is granted than one burst at rate r and what flows in at rate r.
   */
  lemma GrantsAreBounded(w: System, t0: real, es: seq<Event>, r: real)
    requires Sane(w.bucket, t0) && Clocked(t0, es) && Metered(w, es, r)
    ensures Taken(w, es) <= BurstOf(r) + Flow(r, Now(t0, es) - t0)
  {
    MeteredPositive(w, es, r);
    hide *;
    AlwaysPaid(w, t0, es, r);
    SaneKept(w, t0, es);
    PaidBounds(Run(w, es).bucket, Taken(w, es), t0, r, Now(t0, es));
  }

  // ------------------------------------------------------------- when nobody ever has to wait

  /** A packet to be sent at once. */
  datatype Demand = Demand(at: real, len: real)

  function Volume(ds: seq<Demand>): real {
    if ds == [] then 0.0 else ds[0].len + Volume(ds[1..])
  }

  /** Each is granted at its first look. */
  predicate AllGranted(b: Bucket, ds: seq<Demand>)
    decreases |ds|
  {
    ds == [] ||
    (Outcomes(b, ds[0].len, ds[0].at, None) == Granted && AllGranted(Looked(b, ds[0].len, ds[0].at, None), ds[1..]))
  }

  /** Up to each of them, no more is demanded than x and what has flowed in at rate r since t. */
  ghost predicate Below(x: real, t: real, r: real, ds: seq<Demand>) {
    forall j :: 0 <= j < |ds| ==> Volume(ds[..j + 1]) <= x + Flow(r, ds[j].at - t)
  }

  /** In no window is more demanded than a burst and what flows in at rate r meanwhile. */
  ghost predicate Conforms(burst: real, r: real, ds: seq<Demand>)
    decreases |ds|
  {
    ds == [] || (Below(burst, ds[0].at, r, ds) && Conforms(burst, r, ds[1..]))
  }

  lemma BelowLater(x: real, t: real, r: real, ds: seq<Demand>, t': real)
    ensures Below(x + Flow(r, t' - t), t', r, ds) <==> Below(x, t, r, ds)
  {
    hide Flow, Volume;
    forall j | 0 <= j < |ds|
      ensures Flow(r, t' - t) + Flow(r, ds[j].at - t') == Flow(r, ds[j].at - t)
    {
      FlowAdds(r, t' - t, ds[j].at - t');
      assert t' - t + (ds[j].at - t') == ds[j].at - t;
    }
  }

  lemma BelowBoth(x: real, y: real, t: real, r: real, ds: seq<Demand>)
    ensures Below(MinR(x, y), t, r, ds) <==> Below(x, t, r, ds) && Below(y, t, r, ds)
  {
    hide Flow, Volume;
  }

  lemma VolumeFirst(ds: seq<Demand>, j: nat)
    requires j < |ds|
    ensures Volume(ds[..j + 1]) == ds[0].len + Volume(ds[1..][..j])
  {
    assert ds[..j + 1][1..] == ds[1..][..j];
  }

  /** Up to the j-th, no more is demanded than x and what has flowed in at rate r since t. */
  ghost predicate PaidUpTo(x: real, t: real, r: real, ds: seq<Demand>, j: int) {
    0 <= j < |ds| ==> Volume(ds[..j + 1]) <= x + Flow(r, ds[j].at - t)
  }

  lemma PaidFirst(x: real, r: real, ds: seq<Demand>)
    requires ds != []
    ensures PaidUpTo(x, ds[0].at, r, ds, 0) <==> ds[0].len <= x
  {
    hide Flow;
    FlowNone(r);
    VolumeFirst(ds, 0);
  }

  lemma PaidNext(x: real, r: real, ds: seq<Demand>, j: nat)
    requires j + 1 < |ds|
    ensures PaidUpTo(x, ds[0].at, r, ds, j + 1) <==> PaidUpTo(x - ds[0].len, ds[0].at, r, ds[1..], j)
  {
    hide Flow, Volume;
    VolumeFirst(ds, j + 1);
  }

  lemma BelowIsPaid(x: real, t: real, r: real, ds: seq<Demand>)
    ensures Below(x, t, r, ds) <==> forall j :: PaidUpTo(x, t, r, ds, j)
  {
    hide Flow, Volume;
    if Below(x, t, r, ds) {
      forall j ensures PaidUpTo(x, t, r, ds, j) { }
    }
    if forall j :: PaidUpTo(x, t, r, ds, j) {
      forall j | 0 <= j < |ds| ensures Volume(ds[..j + 1]) <= x + Flow(r, ds[j].at - t) {
        assert PaidUpTo(x, t, r, ds, j);
      }
    }
  }

  lemma PaidBeyond(x: real, t: real, r: real, ds: seq<Demand>, j: int)
    requires !(0 <= j < |ds|)
    ensures PaidUpTo(x, t, r, ds, j)
  {
  }

  /** The first one taken, what is left pays for the rest. */
  lemma BelowRest(x: real, r: real, ds: seq<Demand>)
    requires ds != []
    ensures var t := ds[0].at;
      Below(x, t, r, ds) <==> ds[0].len <= x && Below(x - ds[0].len, t, r, ds[1..])
  {
    hide Below, PaidUpTo, Flow, Volume;
    var t, y, rest := ds[0].at, x - ds[0].len, ds[1..];
    BelowIsPaid(x, t, r, ds);
    BelowIsPaid(y, t, r, rest);
    PaidFirst(x, r, ds);
    forall j ensures PaidUpTo(y, t, r, rest, j) <==> (0 <= j < |rest| ==> PaidUpTo(x, t, r, ds, j + 1)) {
      if 0 <= j < |rest| { PaidNext(x, r, ds, j); } else { PaidBeyond(y, t, r, rest, j); }
    }
    if PaidUpTo(x, t, r, ds, 0) && forall j :: PaidUpTo(y, t, r, rest, j) {
      forall j ensures PaidUpTo(x, t, r, ds, j) {
        if 0 < j < |ds| {
          assert PaidUpTo(y, t, r, rest, j - 1);
        } else if j != 0 {
          PaidBeyond(x, t, r, ds, j);
        }
      }
    }
  }

  lemma FlowNone(r: real)
    ensures Flow(r, 0.0) == 0.0
  {
  }

  lemma {:induction false} GrantedExactly(b: Bucket, ds: seq<Demand>)
    requires b.rate > 0.0
    ensures AllGranted(b, ds) <==> Below(b.tokens, b.lastRefill, b.rate, ds) && Conforms(b.burst, b.rate, ds)
    decreases |ds|
  {
    if ds != [] {
      var d, b' := ds[0], Looked(b, ds[0].len, ds[0].at, None);
      var filled := b.tokens + Flow(b.rate, d.at - b.lastRefill);
      LookedAt(b, d);
      BelowLater(b.tokens, b.lastRefill, b.rate, ds, d.at);
      BelowBoth(b.burst, filled, d.at, b.rate, ds);
      BelowRest(MinR(b.burst, filled), b.rate, ds);
      hide Below, Outcomes, Looked, Flow, MinR;
      if Outcomes(b, d.len, d.at, None) == Granted {
        GrantedExactly(b', ds[1..]);
      }
    }
  }

  lemma LookedAt(b: Bucket, d: Demand)
    requires b.rate > 0.0
    ensures var filled := MinR(b.burst, b.tokens + Flow(b.rate, d.at - b.lastRefill));
      && (Outcomes(b, d.len, d.at, None) == Granted <==> d.len <= filled)
      && (d.len <= filled ==> Looked(b, d.len, d.at, None) == b.(tokens := filled - d.len, lastRefill := d.at))
  {
    RefilledIs(b, d.at);
    hide Flow, MinR, Refilled;
  }

  lemma RefilledIs(b: Bucket, now: real)
    ensures Refilled(b, now) ==
      b.(tokens := MinR(b.burst, b.tokens + Flow(b.rate, now - b.lastRefill)), lastRefill := now)
  {
  }

  /**
   A pacer set to a stream of k kbit/s never makes it wait, if and only if the stream sends in no window more
   than 32768 bytes, or 10 ms' worth if that is more, and a quarter above its rate meanwhile; and no more
   than 32768 bytes on top of that since the pacer was made.
   */
  lemma PacingIsFeltExactly(k: int, start: real, ds: seq<Demand>)
    requires k > 0
    ensures var r := k as real * 156.25;
      AllGranted(Rerated(Start(start), k), ds) <==>
        Below(32768.0, start, r, ds) && Conforms(MaxR(32768.0, r * 0.01), r, ds)
  {
    GrantedExactly(Rerated(Start(start), k), ds);
    RateIs(k);
    hide RateOf, Below, Conforms, AllGranted;
  }

  lemma RateIs(k: int)
    ensures RateOf(k) == k as real * 156.25 && BurstOf(RateOf(k)) == MaxR(32768.0, k as real * 156.25 * 0.01)
  {
  }

  /** While pacing is on, a look at or past its deadline is refused, and no other look is. */
  lemma RefusedExactlyWhenLate(b: Bucket, len: real, now: real, deadline: real)
    ensures Outcomes(b, len, now, Some(deadline)) == Expired <==> b.rate > 0.0 && now >= deadline
    ensures Outcomes(b, len, now, Some(deadline)) == Expired ==> Looked(b, len, now, Some(deadline)) == b
  {
    hide Refilled;
  }
}
