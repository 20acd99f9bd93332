/**
 Bytes, big-endian fields and flattening: what every module that touches the wire shares.
 A byte is an integer below 256; shifts and masks of the program are written as division
 and remainder by the matching power of two.
 */
module Bytes {
  type byte = b: int | 0 <= b < 256

  datatype Option<+T> = None | Some(value: T)

  function ToSeq<T>(o: Option<T>): seq<T> {
    match o case None => [] case Some(x) => [x]
  }

  const TWO16: int := 0x1_0000
  const TWO32: int := 0x1_0000_0000
  const TWO64: int := 0x1_0000_0000_0000_0000

  function Min(a: int, b: int): int { if a < b then a else b }

  // ------------------------------------------------------------ big-endian fields

  function BE16(n: int): seq<byte>
    requires 0 <= n < TWO16
  {
    [n / 256, n % 256]
  }

  function BE32(n: int): seq<byte>
    requires 0 <= n < TWO32
  {
    BE16(n / TWO16) + BE16(n % TWO16)
  }

  function Read16(d: seq<byte>, at: nat): (n: int)
    requires at + 2 <= |d|
    ensures 0 <= n < TWO16
  {
    d[at] as int * 256 + d[at + 1]
  }

  function Read32(d: seq<byte>, at: nat): (n: int)
    requires at + 4 <= |d|
    ensures 0 <= n < TWO32
  {
    Read16(d, at) * TWO16 + Read16(d, at + 2)
  }

  /** The number of the packet k places after the one numbered s0. */
  function NumberAt(s0: int, k: nat): (s: int)
    ensures 0 <= s < TWO16
  {
    (s0 + k) % TWO16
  }

  /** Counting on modulo 2^16 is the same from either side of a wrap. */
  lemma CountOn(s: int, i: int)
    ensures (s % TWO16 + i) % TWO16 == (s + i) % TWO16
  {
  }

  // ------------------------------------------------------------------- flattening

  lemma ConcatAssociates<T>(a: seq<T>, b: seq<T>, c: seq<T>)
    ensures a + (b + c) == a + b + c
  {
  }

  function Flatten<T>(ss: seq<seq<T>>): seq<T> {
    if ss == [] then [] else ss[0] + Flatten(ss[1..])
  }

  lemma {:induction false} FlattenConcat<T>(a: seq<seq<T>>, b: seq<seq<T>>)
    ensures Flatten(a + b) == Flatten(a) + Flatten(b)
  {
    if a == [] {
      assert a + b == b;
    } else {
      assert (a + b)[1..] == a[1..] + b;
      FlattenConcat(a[1..], b);
    }
  }

  lemma FlattenSnoc<T>(a: seq<seq<T>>, x: seq<T>)
    ensures Flatten(a + [x]) == Flatten(a) + x
  {
    FlattenConcat(a, [x]);
    assert Flatten([x]) == x;
  }
}
