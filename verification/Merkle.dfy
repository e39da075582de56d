/** The merkle root of a block's transaction hashes (pkg/block/merkle.go): odd levels repeat
    their last node, so the root determines the list only among lists without repeats. */
module Merkle {
  import opened Primitives
  import opened Types
  import opened Arithmetic

  /** One level up: pairs hashed together, the last node of an odd level paired with itself. */
  function Next(level: seq<Hash>): (r: seq<Hash>)
    ensures |r| == (|level| + 1) / 2
    ensures forall i :: 0 <= i < |r| ==> r[i] == HashConcat(level[2 * i], Right(level, i))
  {
    seq<Hash>((|level| + 1) / 2, i requires 0 <= i < (|level| + 1) / 2 => HashConcat(level[2 * i], Right(level, i)))
  }

  function Right(level: seq<Hash>, i: nat): Hash
    requires 2 * i < |level|
  {
    if 2 * i + 1 < |level| then level[2 * i + 1] else level[2 * i]
  }

  function Root(level: seq<Hash>): Hash
    decreases |level|
  {
    if |level| == 0 then ZERO_HASH
    else if |level| == 1 then level[0]
    else Root(Next(level))
  }

  method ComputeMerkleRoot(txHashes: seq<Hash>) returns (root: Hash)
    ensures root == Root(txHashes)
  {
    if |txHashes| == 0 {
      return ZERO_HASH;
    }
    if |txHashes| == 1 {
      return txHashes[0];
    }
    var level := txHashes;
    while |level| > 1
      invariant |level| > 0
      invariant Root(level) == Root(txHashes)
      decreases |level|
    {
      ghost var plain := level;
      if |level| % 2 != 0 {
        level := level + [level[|level| - 1]];
      }
      var next := new Hash[|level| / 2];
      var i := 0;
      ghost var done := 0;
      while i < |level|
        invariant i == 2 * done && 0 <= done <= next.Length
        invariant forall k :: 0 <= k < done ==> next[k] == Next(plain)[k]
      {
        next[i / 2] := HashConcat(level[i], level[i + 1]);
        i, done := i + 2, done + 1;
      }
      level := next[..];
      assert level == Next(plain);
    }
    return level[0];
  }

  // ---------------------------------------------------------------- the tree

  lemma {:induction false} HalfOfNext(level: seq<Hash>, n: nat)
    requires |level| == 4 * n
    ensures Next(level)[..n] == Next(level[..2 * n]) && Next(level)[n..] == Next(level[2 * n..])
  {
    var left, right := level[..2 * n], level[2 * n..];
    forall i | 0 <= i < n
      ensures Next(level)[i] == Next(left)[i] && Next(level)[n + i] == Next(right)[i]
    {
      assert left[2 * i] == level[2 * i] && left[2 * i + 1] == level[2 * i + 1];
      assert right[2 * i] == level[2 * (n + i)] && right[2 * i + 1] == level[2 * (n + i) + 1];
    }
  }

  /** The root of a full tree joins the roots of its halves, left before right... */
  lemma {:induction false} RootOfFull(level: seq<Hash>, k: nat)
    requires |level| == 2 * Pow2(k)
    ensures Root(level) == HashConcat(Root(level[..Pow2(k)]), Root(level[Pow2(k)..]))
    decreases k
  {
    if k == 0 {
      assert Next(level) == [HashConcat(level[0], level[1])];
      assert level[..1] == [level[0]] && level[1..] == [level[1]];
    } else {
      HalfOfNext(level, Pow2(k - 1));
      RootOfFull(Next(level), k - 1);
    }
  }

  /** ... and an odd level is as if its last node stood there twice. */
  lemma {:induction false} RootOfOdd(level: seq<Hash>)
    requires |level| > 1 && |level| % 2 == 1
    ensures Root(level) == Root(level + [level[|level| - 1]])
  {
    var even := level + [level[|level| - 1]];
    forall i | 0 <= i < |Next(level)|
      ensures Next(level)[i] == Next(even)[i]
    {
      assert Right(level, i) == even[2 * i + 1];
    }
    assert Next(level) == Next(even);
  }

  // ---------------------------------------------------------------- the root determines the list

  /** Pairs with equal hashes are equal pairs. */
  ghost predicate ConcatInjective() {
    forall a, b, c, d :: HashConcat(a, b) == HashConcat(c, d) ==> a == c && b == d
  }

  /** No concatenation hash is the hash of a transaction. */
  ghost predicate LeavesApart(leaves: iset<Hash>) {
    forall a, b :: HashConcat(a, b) !in leaves
  }

  /** `x` is a node `rank` levels above the leaves. */
  ghost predicate HasRank(x: Hash, rank: nat, leaves: iset<Hash>)
    decreases rank
  {
    if rank == 0 then x in leaves
    else exists a, b :: x == HashConcat(a, b) && HasRank(a, rank - 1, leaves) && HasRank(b, rank - 1, leaves)
  }

  lemma {:induction false} RankIsUnique(x: Hash, r: nat, s: nat, leaves: iset<Hash>)
    requires ConcatInjective() && LeavesApart(leaves)
    requires HasRank(x, r, leaves) && HasRank(x, s, leaves)
    ensures r == s
    decreases r
  {
    if r > 0 && s > 0 {
      var a, b :| x == HashConcat(a, b) && HasRank(a, r - 1, leaves) && HasRank(b, r - 1, leaves);
      var c, d :| x == HashConcat(c, d) && HasRank(c, s - 1, leaves) && HasRank(d, s - 1, leaves);
      RankIsUnique(a, r - 1, s - 1, leaves);
    }
  }

  ghost predicate AllRank(level: seq<Hash>, rank: nat, leaves: iset<Hash>) {
    forall i :: 0 <= i < |level| ==> HasRank(level[i], rank, leaves)
  }

  lemma NextRank(level: seq<Hash>, rank: nat, leaves: iset<Hash>)
    requires AllRank(level, rank, leaves)
    ensures AllRank(Next(level), rank + 1, leaves)
  {
    forall i | 0 <= i < |Next(level)|
      ensures HasRank(Next(level)[i], rank + 1, leaves)
    {
      assert HasRank(level[2 * i], rank, leaves) && HasRank(Right(level, i), rank, leaves);
    }
  }

  function Depth(n: nat): nat
    requires n > 0
  {
    if n == 1 then 0 else 1 + Depth((n + 1) / 2)
  }

  lemma {:induction false} RootRank(level: seq<Hash>, rank: nat, leaves: iset<Hash>)
    requires |level| > 0 && AllRank(level, rank, leaves)
    ensures HasRank(Root(level), rank + Depth(|level|), leaves)
    decreases |level|
  {
    hide HasRank;
    if |level| > 1 {
      hide AllRank;
      NextRank(level, rank, leaves);
      RootRank(Next(level), rank + 1, leaves);
    }
  }

  lemma NextDistinct(level: seq<Hash>)
    requires ConcatInjective() && Distinct(level)
    ensures Distinct(Next(level))
  {
  }

  lemma NextInjective(a: seq<Hash>, b: seq<Hash>)
    requires ConcatInjective() && Distinct(a) && Distinct(b)
    requires Next(a) == Next(b)
    ensures a == b
  {
    var n := |Next(a)|;
    forall i | 0 <= i < n
      ensures a[2 * i] == b[2 * i] && Right(a, i) == Right(b, i)
    {
      assert Next(a)[i] == Next(b)[i];
    }
    assert n > 0 ==> a[2 * (n - 1)] == b[2 * (n - 1)] && Right(a, n - 1) == Right(b, n - 1);
    assert |a| == |b|;
    forall k | 0 <= k < |a|
      ensures a[k] == b[k]
    {
      assert a[2 * (k / 2)] == b[2 * (k / 2)] && Right(a, k / 2) == Right(b, k / 2);
    }
  }

  lemma {:induction false} SameDepthSameList(a: seq<Hash>, b: seq<Hash>)
    requires ConcatInjective() && Distinct(a) && Distinct(b)
    requires |a| > 0 && |b| > 0 && Depth(|a|) == Depth(|b|)
    requires Root(a) == Root(b)
    ensures a == b
    decreases |a|
  {
    if |a| == 1 || |b| == 1 {
      assert |a| == 1 && |b| == 1;
    } else {
      NextDistinct(a);
      NextDistinct(b);
      SameDepthSameList(Next(a), Next(b));
      NextInjective(a, b);
    }
  }

  /** Two non-empty lists of pairwise distinct transaction hashes, of any lengths, with the same
      root are the same list. */
  lemma {:induction false} RootDeterminesList(a: seq<Hash>, b: seq<Hash>, leaves: iset<Hash>)
    requires ConcatInjective() && LeavesApart(leaves)
    requires |a| > 0 && |b| > 0 && Distinct(a) && Distinct(b)
    requires forall x :: x in a || x in b ==> x in leaves
    requires Root(a) == Root(b)
    ensures a == b
  {
    RootRank(a, 0, leaves);
    RootRank(b, 0, leaves);
    RankIsUnique(Root(a), Depth(|a|), Depth(|b|), leaves);
    SameDepthSameList(a, b);
  }

  // ---------------------------------------------------------------- lists with repeats

  function Width(n: nat): nat
    requires n > 0
  {
    if n == 1 then 1 else 2 * Width((n + 1) / 2)
  }

  /** Which of n leaves stands at place j of the full tree: the last node of an odd level twice. */
  function LeafAt(n: nat, j: nat): (i: nat)
    requires n > 0 && j < Width(n)
    ensures i < n
  {
    if n == 1 then 0 else
      var child := 2 * LeafAt((n + 1) / 2, j / 2) + j % 2;
      if child < n then child else n - 1
  }

  /** The two lists fill their trees alike, the repeated tails included. */
  ghost predicate SamePadded(a: seq<Hash>, b: seq<Hash>)
    requires |a| > 0 && |b| > 0
  {
    && Depth(|a|) == Depth(|b|) && Width(|a|) == Width(|b|)
    && forall j :: 0 <= j < Width(|a|) ==> a[LeafAt(|a|, j)] == b[LeafAt(|b|, j)]
  }

  lemma HalfBelow(j: nat, w: nat)
    requires j < 2 * w
    ensures j / 2 < w && 0 <= j % 2 < 2
  {
  }

  lemma WidthDoubles(n: nat)
    requires n > 1
    ensures (n + 1) / 2 > 0 && Width(n) == 2 * Width((n + 1) / 2) && Depth(n) == 1 + Depth((n + 1) / 2)
  {
  }

  lemma LeafStep(n: nat, j: nat)
    requires n > 1 && j < Width(n)
    ensures j / 2 < Width((n + 1) / 2)
    ensures var child := 2 * LeafAt((n + 1) / 2, j / 2) + j % 2; LeafAt(n, j) == if child < n then child else n - 1
  {
    WidthDoubles(n);
    HalfBelow(j, Width((n + 1) / 2));
  }

  lemma LeavesBelow(level: seq<Hash>, j: nat)
    requires |level| > 1 && j < Width(|level|)
    ensures |Next(level)| == (|level| + 1) / 2 && j / 2 < Width(|Next(level)|)
    ensures var i := LeafAt(|Next(level)|, j / 2);
            level[LeafAt(|level|, j)] == if j % 2 == 0 then level[2 * i] else Right(level, i)
  {
    hide Next, Width, LeafAt;
    LeafStep(|level|, j);
    var n, i, side := |level|, LeafAt((|level| + 1) / 2, j / 2), j % 2;
    assert 2 * i < n && (side == 0 || side == 1);
  }

  lemma PairsBelow(level: seq<Hash>, k: nat)
    requires |level| > 1 && k < Width(|Next(level)|)
    ensures 2 * k + 1 < Width(|level|)
    ensures Next(level)[LeafAt(|Next(level)|, k)] == HashConcat(level[LeafAt(|level|, 2 * k)], level[LeafAt(|level|, 2 * k + 1)])
  {
    hide Next, Width, LeafAt;
    WidthDoubles(|level|);
    LeavesBelow(level, 2 * k);
    LeavesBelow(level, 2 * k + 1);
    assert (2 * k + 1) / 2 == k && (2 * k + 1) % 2 == 1;
  }

  lemma PaddedUp(a: seq<Hash>, b: seq<Hash>)
    requires |a| > 1 && |b| > 1 && SamePadded(a, b)
    ensures SamePadded(Next(a), Next(b))
  {
    hide Next, Width, LeafAt, Depth;
    var a', b' := Next(a), Next(b);
    WidthDoubles(|a|);
    WidthDoubles(|b|);
    forall k | 0 <= k < Width(|a'|)
      ensures a'[LeafAt(|a'|, k)] == b'[LeafAt(|b'|, k)]
    {
      PairsBelow(a, k);
      PairsBelow(b, k);
    }
  }

  lemma PaddedDown(a: seq<Hash>, b: seq<Hash>)
    requires ConcatInjective() && |a| > 1 && |b| > 1 && SamePadded(Next(a), Next(b))
    ensures SamePadded(a, b)
  {
    hide Next, Width, LeafAt, Depth;
    WidthDoubles(|a|);
    WidthDoubles(|b|);
    forall j | 0 <= j < Width(|a|)
      ensures a[LeafAt(|a|, j)] == b[LeafAt(|b|, j)]
    {
      HalfBelow(j, Width(|Next(a)|));
      var k := j / 2;
      PairsBelow(a, k);
      PairsBelow(b, k);
      assert Next(a)[LeafAt(|Next(a)|, k)] == Next(b)[LeafAt(|Next(b)|, k)];
      assert j == 2 * k || j == 2 * k + 1;
    }
  }

  lemma {:induction false} SameDepthSamePadded(a: seq<Hash>, b: seq<Hash>)
    requires ConcatInjective() && |a| > 0 && |b| > 0 && Depth(|a|) == Depth(|b|)
    ensures Root(a) == Root(b) <==> SamePadded(a, b)
    decreases |a|
  {
    if |a| == 1 || |b| == 1 {
      assert |a| == 1 && |b| == 1;
      assert LeafAt(1, 0) == 0;
    } else {
      SameDepthSamePadded(Next(a), Next(b));
      if SamePadded(a, b) {
        PaddedUp(a, b);
      } else if SamePadded(Next(a), Next(b)) {
        PaddedDown(a, b);
      }
    }
  }

  /** Any two non-empty lists of transaction hashes have the same root exactly when they fill their
      trees alike: when they differ at most by repeats of the tail of an odd level. */
  lemma {:induction false} SameRootExactlyWhen(a: seq<Hash>, b: seq<Hash>, leaves: iset<Hash>)
    requires ConcatInjective() && LeavesApart(leaves)
    requires |a| > 0 && |b| > 0 && forall x :: x in a || x in b ==> x in leaves
    ensures Root(a) == Root(b) <==> SamePadded(a, b)
  {
    if Root(a) == Root(b) {
      RootRank(a, 0, leaves);
      RootRank(b, 0, leaves);
      RankIsUnique(Root(a), Depth(|a|), Depth(|b|), leaves);
    }
    if Depth(|a|) == Depth(|b|) {
      SameDepthSamePadded(a, b);
    }
  }

  /** Distinctness is needed: repeating the tail of an odd list keeps the root. */
  lemma RepeatedTailSameRoot(a: Hash, b: Hash, c: Hash)
    ensures Root([a, b, c]) == Root([a, b, c, c])
    ensures [a, b, c] != [a, b, c, c]
  {
    assert Next([a, b, c]) == Next([a, b, c, c]);
    assert |[a, b, c]| != |[a, b, c, c]|;
  }
}
