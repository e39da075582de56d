/** Go's sort.Slice: it promises a sorted permutation and nothing about ties. */
module Sorting {
  import opened Primitives

  ghost predicate TotalPreorder<T(!new)>(le: (T, T) -> bool) {
    && (forall a, b :: le(a, b) || le(b, a))
    && (forall a, b, c :: le(a, b) && le(b, c) ==> le(a, c))
  }

  ghost predicate SortedBy<T>(le: (T, T) -> bool, s: seq<T>) {
    forall i, j :: 0 <= i < j < |s| ==> le(s[i], s[j])
  }

  method SortSlice<T(!new)>(s: seq<T>, le: (T, T) -> bool) returns (r: seq<T>)
    requires TotalPreorder(le)
    ensures SortedBy(le, r)
    ensures multiset(r) == multiset(s)
  {
    r := [];
    for n := 0 to |s|
      invariant SortedBy(le, r)
      invariant multiset(r) == multiset(s[..n])
    {
      var k := 0;
      while k < |r| && le(r[k], s[n])
        invariant 0 <= k <= |r|
        invariant forall i :: 0 <= i < k ==> le(r[i], s[n])
      {
        k := k + 1;
      }
      assert s[..n + 1] == s[..n] + [s[n]];
      assert r == r[..k] + r[k..];
      InsertSorted(le, r, k, s[n]);
      r := r[..k] + [s[n]] + r[k..];
    }
    assert s[..|s|] == s;
  }

  lemma InsertSorted<T(!new)>(le: (T, T) -> bool, r: seq<T>, k: nat, x: T)
    requires TotalPreorder(le) && SortedBy(le, r) && k <= |r|
    requires forall i :: 0 <= i < k ==> le(r[i], x)
    requires k < |r| ==> !le(r[k], x)
    ensures SortedBy(le, r[..k] + [x] + r[k..])
  {
    var all := r[..k] + [x] + r[k..];
    forall i, j | 0 <= i < j < |all|
      ensures le(all[i], all[j])
    {
      if i == k {
        assert le(x, r[k]);
        assert all[j] == r[j - 1];
      }
    }
  }

  lemma MultisetElements<T>(a: seq<T>, b: seq<T>)
    requires multiset(a) == multiset(b)
    ensures |a| == |b| && Elements(a) == Elements(b)
  {
    assert |multiset(a)| == |multiset(b)|;
    forall x
      ensures x in a <==> x in b
    {
      assert x in a <==> x in multiset(a);
      assert x in b <==> x in multiset(b);
    }
  }

  ghost predicate Antisymmetric<T(!new)>(le: (T, T) -> bool) {
    forall x, y :: le(x, y) && le(y, x) ==> x == y
  }

  lemma SameHead<T(!new)>(le: (T, T) -> bool, a: seq<T>, b: seq<T>)
    requires TotalPreorder(le) && Antisymmetric(le)
    requires SortedBy(le, a) && SortedBy(le, b) && |a| > 0 && multiset(a) == multiset(b)
    ensures |b| > 0 && a[0] == b[0]
  {
    MultisetElements(a, b);
    assert a[0] in Elements(b) && b[0] in Elements(a);
    assert le(a[0], a[0]) && le(b[0], b[0]);
    assert le(a[0], b[0]) && le(b[0], a[0]);
  }

  lemma TailMultiset<T>(s: seq<T>)
    requires |s| > 0
    ensures multiset(s[1..]) == multiset(s) - multiset{s[0]}
  {
    assert s == [s[0]] + s[1..];
  }

  /** With an antisymmetric order the sorted permutation is unique: whoever sorts the same
      elements, in whatever order they came, gets the same list. */
  lemma {:induction false} SortedIsCanonical<T(!new)>(le: (T, T) -> bool, a: seq<T>, b: seq<T>)
    requires TotalPreorder(le) && Antisymmetric(le)
    requires SortedBy(le, a) && SortedBy(le, b) && multiset(a) == multiset(b)
    ensures a == b
    decreases |a|
  {
    hide TotalPreorder, Antisymmetric;
    if |a| > 0 {
      SameHead(le, a, b);
      TailMultiset(a);
      TailMultiset(b);
      SortedIsCanonical(le, a[1..], b[1..]);
      assert a == [a[0]] + a[1..] && b == [b[0]] + b[1..];
    } else {
      assert |multiset(b)| == 0;
    }
  }

  lemma RepeatCounts<T>(s: seq<T>, i: nat, j: nat)
    requires i < j < |s| && s[i] == s[j]
    ensures multiset(s)[s[i]] >= 2
  {
    assert s == s[..j] + [s[j]] + s[j + 1..];
    assert s[i] in s[..j];
  }

  lemma {:induction false} CountsRepeat<T>(s: seq<T>, x: T)
    requires multiset(s)[x] >= 2
    ensures exists i, j :: 0 <= i < j < |s| && s[i] == s[j] == x
  {
    assert x in multiset(s);
    var j :| 0 <= j < |s| && s[j] == x;
    assert s == s[..j] + [s[j]] + s[j + 1..];
    if x in s[..j] {
      var i :| 0 <= i < j && s[..j][i] == x;
      assert s[i] == s[j] == x;
    } else {
      assert x in multiset(s[j + 1..]);
      var i :| 0 <= i < |s| - j - 1 && s[j + 1..][i] == x;
      assert s[j] == s[j + 1 + i] == x;
    }
  }

  /** A list without repeats stays one however it is rearranged. */
  lemma {:induction false} DistinctPermutes<T(!new)>(a: seq<T>, b: seq<T>)
    requires Distinct(a) && multiset(a) == multiset(b)
    ensures Distinct(b)
  {
    forall i, j | 0 <= i < j < |b|
      ensures b[i] != b[j]
    {
      if b[i] == b[j] {
        RepeatCounts(b, i, j);
        CountsRepeat(a, b[i]);
      }
    }
  }
}
