/**
 Splitting an Annex B byte stream into NAL units (src/streamer/rtp_packetizer.cpp, for_each_nal).

 The specification knows one start code only, 00 00 01, and trims zero bytes before it; the
 program also matches 00 00 00 01. ForEachNal shows the two agree on every input.
 */
module AnnexB {
  import opened Bytes

  type Nal = seq<byte>

  predicate CodeAt(d: seq<byte>, k: int) {
    0 <= k && k + 2 < |d| && d[k] == 0 && d[k + 1] == 0 && d[k + 2] == 1
  }

  /** k is the first start code at or after `from`, or the end of the data. */
  ghost predicate FirstCode(d: seq<byte>, from: nat, k: nat) {
    && from <= k <= |d|
    && (k < |d| ==> CodeAt(d, k))
    && forall j :: from <= j < k ==> !CodeAt(d, j)
  }

  lemma {:induction false} FirstCodeExists(d: seq<byte>, from: nat)
    requires from <= |d|
    ensures exists k :: FirstCode(d, from, k)
    decreases |d| - from
  {
    if from == |d| || CodeAt(d, from) {
      assert FirstCode(d, from, from);
    } else {
      FirstCodeExists(d, from + 1);
      var k :| FirstCode(d, from + 1, k);
      assert FirstCode(d, from, k);
    }
  }

  ghost function NextCode(d: seq<byte>, from: nat): (k: nat)
    requires from <= |d|
    ensures FirstCode(d, from, k)
  {
    FirstCodeExists(d, from);
    var k :| FirstCode(d, from, k);
    k
  }

  /** e is the end of d[lo..hi] without its trailing zero bytes. */
  ghost predicate Trimmed(d: seq<byte>, lo: nat, hi: nat, e: nat)
    requires hi <= |d|
  {
    && lo <= e <= hi
    && (lo < e ==> d[e - 1] != 0)
    && forall j :: e <= j < hi ==> d[j] == 0
  }

  lemma {:induction false} TrimmedExists(d: seq<byte>, lo: nat, hi: nat)
    requires lo <= hi <= |d|
    ensures exists e :: Trimmed(d, lo, hi, e)
    decreases hi
  {
    if lo < hi && d[hi - 1] == 0 {
      TrimmedExists(d, lo, hi - 1);
      var e :| Trimmed(d, lo, hi - 1, e);
      assert Trimmed(d, lo, hi, e);
    } else {
      assert Trimmed(d, lo, hi, hi);
    }
  }

  ghost function TrimEnd(d: seq<byte>, lo: nat, hi: nat): (e: nat)
    requires lo <= hi <= |d|
    ensures Trimmed(d, lo, hi, e)
  {
    TrimmedExists(d, lo, hi);
    var e :| Trimmed(d, lo, hi, e);
    e
  }

  ghost function AfterCode(d: seq<byte>, k: nat): nat {
    if k < |d| then k + 3 else |d|
  }

  /** The units after `start`, which is just after a start code (or the end). */
  ghost function UnitsFrom(d: seq<byte>, start: nat): seq<Nal>
    requires start <= |d|
    decreases |d| - start
  {
    if start == |d| then []
    else
      var next := NextCode(d, start);
      var end := TrimEnd(d, start, next);
      (if end - start >= 2 then [d[start..end]] else []) + UnitsFrom(d, AfterCode(d, next))
  }

  /** The NAL units of an access unit: the specification of for_each_nal. */
  ghost function Nals(d: seq<byte>): seq<Nal> {
    UnitsFrom(d, AfterCode(d, NextCode(d, 0)))
  }

  /** Each unit is a slice of the data at its place, and a start code fits between it and the next. */
  ghost predicate Located(d: seq<byte>, from: nat, units: seq<Nal>, at: seq<nat>)
    decreases |units|
  {
    && |at| == |units|
    && (units != [] ==>
      && from <= at[0]
      && 2 <= |units[0]| <= |d| - at[0]
      && units[0] == d[at[0]..at[0] + |units[0]|]
      && Located(d, at[0] + |units[0]| + 3, units[1..], at[1..]))
  }

  /** On arbitrary bytes the units are slices of the input: in range, in order, disjoint. */
  lemma {:induction false} UnitsAreSlices(d: seq<byte>, start: nat) returns (at: seq<nat>)
    requires start <= |d|
    ensures Located(d, start, UnitsFrom(d, start), at)
    decreases |d| - start
  {
    if start == |d| {
      at := [];
    } else {
      var next := NextCode(d, start);
      var end := TrimEnd(d, start, next);
      var rest := UnitsFrom(d, AfterCode(d, next));
      at := UnitsAreSlices(d, AfterCode(d, next));
      if end - start >= 2 {
        assert UnitsFrom(d, start) == [d[start..end]] + rest;
        assert Located(d, end + 3, rest, at);
        at := [start] + at;
      } else {
        assert UnitsFrom(d, start) == rest;
      }
    }
  }

  /** What every unit the splitter yields looks like, whatever the input. */
  ghost predicate WellFormed(n: Nal) {
    |n| >= 2 && n[|n| - 1] != 0 && forall k :: !CodeAt(n, k)
  }

  lemma {:induction false} UnitsWellFormed(d: seq<byte>, start: nat)
    requires start <= |d|
    ensures forall n :: n in UnitsFrom(d, start) ==> WellFormed(n)
    decreases |d| - start
  {
    if start < |d| {
      var next := NextCode(d, start);
      var end := TrimEnd(d, start, next);
      UnitsWellFormed(d, AfterCode(d, next));
      var n := d[start..end];
      forall k ensures !CodeAt(n, k) {
        assert 0 <= k && k + 2 < |n| ==> !CodeAt(d, start + k);
      }
    }
  }

  lemma NalsWellFormed(d: seq<byte>)
    ensures forall n :: n in Nals(d) ==> WellFormed(n)
  {
    UnitsWellFormed(d, AfterCode(d, NextCode(d, 0)));
  }

  // -------------------------------------------------------------- the two loops

  method FindStart(data: seq<byte>, from: nat) returns (p: nat)
    requires from <= |data|
    ensures p == AfterCode(data, NextCode(data, from))
  {
    var k := from;
    while k + 2 < |data|
      invariant from <= k <= |data|
      invariant forall j :: from <= j < k ==> !CodeAt(data, j)
    {
      if data[k] == 0 && data[k + 1] == 0 {
        if data[k + 2] == 1 {
          assert CodeAt(data, k);
          return k + 3;
        }
        if k + 3 < |data| && data[k + 2] == 0 && data[k + 3] == 1 {
          assert CodeAt(data, k + 1);
          return k + 4;
        }
      }
      k := k + 1;
    }
    return |data|;
  }

  /** The scan for the end of a unit and the trimming of its padding. */
  method FindEnd(data: seq<byte>, nalStart: nat) returns (nalEnd: nat, end: nat)
    requires nalStart <= |data|
    ensures nalStart <= nalEnd <= |data| && NextCode(data, nalEnd) == NextCode(data, nalStart)
    ensures end == TrimEnd(data, nalStart, NextCode(data, nalStart))
  {
    var n := |data|;
    var k := nalStart;
    nalEnd := n;
    while k + 2 < n
      invariant nalStart <= k <= n && nalEnd == n
      invariant forall j :: nalStart <= j < k ==> !CodeAt(data, j)
    {
      if data[k] == 0 && data[k + 1] == 0 &&
         (data[k + 2] == 1 || (k + 3 < n && data[k + 2] == 0 && data[k + 3] == 1)) {
        nalEnd := k;
        assert CodeAt(data, k) || CodeAt(data, k + 1);
        break;
      }
      k := k + 1;
    }
    ghost var next := NextCode(data, nalStart);
    assert nalEnd == next || (nalEnd + 1 == next && data[nalEnd] == 0);
    end := nalEnd;
    while end > nalStart && data[end - 1] == 0
      invariant nalStart <= end <= nalEnd
      invariant forall j :: end <= j < next ==> data[j] == 0
    {
      end := end - 1;
    }
    assert Trimmed(data, nalStart, next, end);
  }

  /** for_each_nal: hands the units over in order; here they are collected. */
  method ForEachNal(data: seq<byte>) returns (nals: seq<Nal>)
    ensures nals == Nals(data)
  {
    var n := |data|;
    var nalStart := FindStart(data, 0);
    nals := [];
    while nalStart < n
      invariant nalStart <= n
      invariant Nals(data) == nals + UnitsFrom(data, nalStart)
      decreases n - nalStart
    {
      var nalEnd, end := FindEnd(data, nalStart);
      ghost var before, rest := nals, UnitsFrom(data, AfterCode(data, NextCode(data, nalStart)));
      ghost var unit := if end - nalStart >= 2 then [data[nalStart..end]] else [];
      assert UnitsFrom(data, nalStart) == unit + rest;
      if end - nalStart >= 2 {
        nals := nals + [data[nalStart..end]];
      }
      assert nals == before + unit;
      ConcatAssociates(before, unit, rest);
      nalStart := FindStart(data, nalEnd);
    }
  }

  // --------------------------------------------------- splitting inverts joining

  function Zeros(n: nat): seq<byte> {
    seq(n, _ => 0)
  }

  /**
   Units with a start code before each, any number of zero bytes before every start code
   (one makes it the four-byte code) and after the last unit.
   */
  function Joined(nals: seq<Nal>, pads: seq<nat>): seq<byte>
    requires |pads| == |nals| + 1
  {
    if nals == [] then Zeros(pads[0])
    else Zeros(pads[0]) + [0, 0, 1] + nals[0] + Joined(nals[1..], pads[1..])
  }

  /** d[at..] is joined units: where the padding, the start code and the first unit are. */
  lemma JoinedHead(d: seq<byte>, at: nat, nals: seq<Nal>, pads: seq<nat>)
    requires at <= |d| && |pads| == |nals| + 1
    requires d[at..] == Joined(nals, pads)
    ensures at + pads[0] <= |d|
    ensures forall j :: at <= j < at + pads[0] ==> d[j] == 0
    ensures nals == [] ==> at + pads[0] == |d|
    ensures nals != [] ==>
      var s := at + pads[0] + 3; var e := s + |nals[0]|;
      && e <= |d| && CodeAt(d, s - 3)
      && d[s..e] == nals[0] && d[e..] == Joined(nals[1..], pads[1..])
  {
    var t := d[at..];
    var z := Zeros(pads[0]);
    if nals == [] {
      assert t == z;
    } else {
      var rest := Joined(nals[1..], pads[1..]);
      var s := pads[0] + 3;
      var e := s + |nals[0]|;
      assert t == z + [0, 0, 1] + nals[0] + rest;
      assert t[..pads[0]] == z;
      assert t[s..e] == nals[0] && t[e..] == rest;
      assert t[s - 3] == 0 && t[s - 2] == 0 && t[s - 1] == 1;
      assert d[at + s..at + e] == t[s..e] && d[at + e..] == t[e..];
      assert d[at + s - 3] == t[s - 3] && d[at + s - 2] == t[s - 2] && d[at + s - 1] == t[s - 1];
    }
    forall j | at <= j < at + pads[0]
      ensures d[j] == 0
    {
      assert d[j] == t[j - at] == z[j - at];
    }
  }

  /** A unit at start..end, then zero bytes up to a start code or the end: where the scan stops. */
  lemma ScanSkipsUnit(d: seq<byte>, start: nat, end: nat, stop: nat)
    requires start <= end <= stop <= |d|
    requires forall k :: !CodeAt(d[start..end], k)
    requires forall j :: end <= j < stop ==> d[j] == 0
    requires stop == |d| || CodeAt(d, stop)
    ensures NextCode(d, start) == stop
  {
    forall j | start <= j < stop
      ensures !CodeAt(d, j)
    {
      if j + 2 < end {
        var u := d[start..end];
        assert !CodeAt(u, j - start);
        assert u[j - start] == d[j] && u[j - start + 1] == d[j + 1] && u[j - start + 2] == d[j + 2];
      }
    }
  }

  lemma {:induction false} SplitUnit(d: seq<byte>, start: nat, end: nat, nals: seq<Nal>, pads: seq<nat>)
    requires start <= end <= |d| && |pads| == |nals| + 1
    requires WellFormed(d[start..end])
    requires forall n :: n in nals ==> WellFormed(n)
    requires d[end..] == Joined(nals, pads)
    ensures UnitsFrom(d, start) == [d[start..end]] + nals
    decreases |nals|
  {
    JoinedHead(d, end, nals, pads);
    var next := end + pads[0];
    ScanSkipsUnit(d, start, end, next);
    assert d[end - 1] != 0 by { assert d[start..end][end - start - 1] == d[end - 1]; }
    assert TrimEnd(d, start, next) == end;
    assert UnitsFrom(d, start) == [d[start..end]] + UnitsFrom(d, AfterCode(d, next));
    if nals != [] {
      SplitUnit(d, next + 3, next + 3 + |nals[0]|, nals[1..], pads[1..]);
      assert nals == [nals[0]] + nals[1..];
    }
  }

  /** Splitting gives back exactly the joined units, whatever the start codes and the padding. */
  lemma SplitInvertsJoin(nals: seq<Nal>, pads: seq<nat>)
    requires |pads| == |nals| + 1
    requires forall n :: n in nals ==> WellFormed(n)
    ensures Nals(Joined(nals, pads)) == nals
  {
    var d := Joined(nals, pads);
    assert d[0..0] == [];
    assert d[0..] == d;
    JoinedHead(d, 0, nals, pads);
    ScanSkipsUnit(d, 0, 0, pads[0]);
    if nals != [] {
      SplitUnit(d, pads[0] + 3, pads[0] + 3 + |nals[0]|, nals[1..], pads[1..]);
      assert nals == [nals[0]] + nals[1..];
    }
  }

  /** Four-byte start codes before every unit and nothing else: the form the decoder receives. */
  function AnnexB4(nals: seq<Nal>): seq<byte> {
    if nals == [] then [] else AnnexB4(nals[..|nals| - 1]) + [0, 0, 0, 1] + nals[|nals| - 1]
  }

  lemma {:induction false} AnnexB4IsJoined(nals: seq<Nal>)
    ensures AnnexB4(nals) == Joined(nals, seq(|nals|, _ => 1) + [0])
  {
    if nals != [] {
      var m := |nals| - 1;
      AnnexB4IsJoined(nals[..m]);
      JoinedSnoc(nals[..m], seq(m, _ => 1), nals[m]);
      assert nals[..m] + [nals[m]] == nals;
      assert seq(m, _ => 1) + [1, 0] == seq(|nals|, _ => 1) + [0];
    }
  }

  lemma {:induction false} JoinedSnoc(nals: seq<Nal>, pads: seq<nat>, n: Nal)
    requires |pads| == |nals|
    ensures Joined(nals + [n], pads + [1, 0]) == Joined(nals, pads + [0]) + [0, 0, 0, 1] + n
  {
    if nals == [] {
      assert Joined([n], [1, 0]) == Zeros(1) + [0, 0, 1] + n + Joined([], [0]);
    } else {
      JoinedSnoc(nals[1..], pads[1..], n);
      assert (nals + [n])[1..] == nals[1..] + [n];
      assert (pads + [1, 0])[1..] == pads[1..] + [1, 0];
      assert (pads + [0])[1..] == pads[1..] + [0];
    }
  }

  /** Re-framing is idempotent: the decoder's form of any stream splits into the same units. */
  lemma ReframingKeepsUnits(d: seq<byte>)
    ensures Nals(AnnexB4(Nals(d))) == Nals(d)
  {
    NalsWellFormed(d);
    AnnexB4IsJoined(Nals(d));
    SplitInvertsJoin(Nals(d), seq(|Nals(d)|, _ => 1) + [0]);
  }
}
