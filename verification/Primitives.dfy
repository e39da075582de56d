/** Small vocabulary shared by every module: failure-carrying results, the widths of
    Go's unsigned integers, and sums over sequences and finite maps. */
module Primitives {

  datatype Option<+T> = None | Some(value: T)

  datatype Result<+T, +E> = Success(value: T) | Failure(error: E)

  const MAX_U64: int := 0xFFFF_FFFF_FFFF_FFFF
  const TWO_64: int := 0x1_0000_0000_0000_0000

  type Uint64 = x: int | 0 <= x <= 0xFFFF_FFFF_FFFF_FFFF
  type Byte = x: int | 0 <= x < 256
  type Bytes = seq<Byte>

  /** Go's `a - b` on uint64, which wraps around below zero. */
  function Sub64(a: int, b: int): Uint64 {
    (a - b) % TWO_64
  }

  /** Go's `a + b` on uint64, which wraps around above 2^64 - 1. */
  function Add64(a: int, b: int): Uint64 {
    (a + b) % TWO_64
  }

  function Min(a: int, b: int): int {
    if a <= b then a else b
  }

  function Max(a: int, b: int): int {
    if a >= b then a else b
  }

  /** The sum of `w` over a sequence, by its last element so that it follows a loop. */
  function Sum<T>(s: seq<T>, w: T -> nat): nat {
    if |s| == 0 then 0 else Sum(s[..|s| - 1], w) + w(s[|s| - 1])
  }

  lemma {:induction false} SumPrefix<T>(s: seq<T>, w: T -> nat, i: nat)
    requires i < |s|
    ensures Sum(s[..i + 1], w) == Sum(s[..i], w) + w(s[i])
  {
    assert s[..i + 1][..i] == s[..i];
  }

  lemma {:induction false} SumMonotone<T>(s: seq<T>, w: T -> nat, i: nat)
    requires i <= |s|
    ensures Sum(s[..i], w) <= Sum(s, w)
    decreases |s| - i
  {
    if i == |s| {
      assert s[..i] == s;
    } else {
      SumPrefix(s, w, i);
      SumMonotone(s, w, i + 1);
    }
  }

  /** The sum of `w` over the values of a finite map. */
  ghost function MapSum<K(!new), V>(m: map<K, V>, w: V -> nat): nat
    decreases |m|
  {
    if m == map[] then 0 else
      var k :| k in m;
      w(m[k]) + MapSum(m - {k}, w)
  }

  lemma {:induction false} MapSumRemove<K(!new), V>(m: map<K, V>, k: K, w: V -> nat)
    requires k in m
    ensures MapSum(m, w) == MapSum(m - {k}, w) + w(m[k])
    decreases |m|
  {
    var c :| c in m && MapSum(m, w) == w(m[c]) + MapSum(m - {c}, w);
    if c != k {
      MapSumRemove(m - {c}, k, w);
      MapSumRemove(m - {k}, c, w);
      assert m - {c} - {k} == m - {k} - {c};
    }
  }

  lemma {:induction false} MapSumAdd<K(!new), V>(m: map<K, V>, k: K, v: V, w: V -> nat)
    requires k !in m
    ensures MapSum(m[k := v], w) == MapSum(m, w) + w(v)
  {
    assert m[k := v] - {k} == m;
    MapSumRemove(m[k := v], k, w);
  }

  lemma {:induction false} MapSumPositive<K(!new), V>(m: map<K, V>, w: V -> nat)
    requires MapSum(m, w) > 0
    ensures exists k :: k in m && w(m[k]) > 0
    decreases |m|
  {
    var c :| c in m && MapSum(m, w) == w(m[c]) + MapSum(m - {c}, w);
    if w(m[c]) == 0 {
      MapSumPositive(m - {c}, w);
    }
  }

  lemma MapUpdated<K, V>(a: map<K, V>, b: map<K, V>, k: K, v: V)
    ensures (a + b)[k := v] == a + b[k := v]
  {
  }

  /** The set of the elements of a sequence. */
  function Elements<T>(s: seq<T>): set<T> {
    set x | x in s
  }

  ghost predicate Distinct<T(!new)>(s: seq<T>) {
    forall i, j :: 0 <= i < j < |s| ==> s[i] != s[j]
  }
}
