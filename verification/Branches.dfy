/** Branches of the block tree: the walk of collectBranch, the chain a switch leads to, and how far
    an interrupted switch may have come. */
module Branches {
  import opened Primitives
  import opened Types
  import opened StateRules
  import opened Replay
  import opened Storage
  import opened ChainSpec

  ghost function Reversed<T>(s: seq<T>): (r: seq<T>)
    ensures |r| == |s| && forall i :: 0 <= i < |s| ==> r[i] == s[|s| - 1 - i]
  {
    if |s| == 0 then [] else [s[|s| - 1]] + Reversed(s[..|s| - 1])
  }

  /** collectBranch's in-place reversal. */
  method ReverseInPlace(branch: array<Block>)
    modifies branch
    ensures branch[..] == Reversed(old(branch[..]))
  {
    var i, j := 0, branch.Length - 1;
    while i < j
      invariant 0 <= i <= branch.Length && j == branch.Length - 1 - i && i <= j + 1
      invariant forall k :: 0 <= k < i ==> branch[k] == old(branch[branch.Length - 1 - k]) && branch[branch.Length - 1 - k] == old(branch[k])
      invariant forall k :: i <= k <= j ==> branch[k] == old(branch[k])
    {
      branch[i], branch[j] := branch[j], branch[i];
      i, j := i + 1, j - 1;
    }
  }

  lemma SumEmpty()
    ensures Sum([], DifficultyOf) == 0
  {
  }

  lemma DifficultyIs(b: Block)
    ensures DifficultyOf(b) == b.header.difficulty
  {
  }

  lemma AddFits(a: nat, b: nat)
    ensures a + b <= MAX_U64 ==> Add64(a, b) == a + b
  {
  }

  lemma ChainStart(rules: Rules, g: Block, chain: seq<Block>)
    requires ChainOk(rules, g, chain)
    ensures |chain| > 0 && g.header.difficulty == 0 && g.header.height == 0
  {
  }

  lemma BranchUse(d: Disk, g: Block, chain: seq<Block>, hash: Hash, path: seq<Block>)
    requires hash in d.blocks && IsBranch(d, g, chain, hash, path) && |chain| > 0 && g.header.difficulty == 0 && g.header.height == 0
    ensures |path| > 0 && Linked(path) && Stored(d, path) && path[|path| - 1] == d.blocks[hash]
    ensures hash == g.Hash() ==> path[0].header.height == 0 && Sum(path, DifficultyOf) == 0
    ensures hash != g.Hash() ==> 0 < path[0].header.height <= |chain| && path[0].header.prevHash == chain[path[0].header.height - 1].Hash()
    ensures forall i :: 0 <= i < |path| ==> BranchBlockOk(path[i]) && path[i].header.difficulty <= 2
    ensures path[|path| - 1].header.height == path[0].header.height + |path| - 1
  {
    hide Tagged;
    LinkedHeights(path, |path| - 1);
    if hash == g.Hash() {
      assert path[..0] == [];
    } else {
      forall i | 0 <= i < |path|
        ensures path[i].header.height > 0
      {
        LinkedHeights(path, i);
      }
    }
  }

  /** collectBranch's test: the block below `b` in the height index is its parent. */
  predicate IndexedParent(d: Disk, b: Block) {
    b.header.height > 0 && d.BlockAt(b.header.height - 1).Some? && d.BlockAt(b.header.height - 1).value.Hash() == b.header.prevHash
  }

  /** The blocks collectBranch visits, lowest first. It asks the height index, not the chain. */
  ghost function Walk(d: Disk, g: Block, hash: Hash): seq<Block>
    requires StoreOk(d, g) && hash in d.blocks
    decreases d.blocks[hash].header.height
  {
    var b := d.blocks[hash];
    assert StoredOk(d, g, hash);
    if b.header.height == 0 || IndexedParent(d, b) then [b] else Walk(d, g, b.header.prevHash) + [b]
  }

  /** The height index holds the parent of `b` above the tip of `chain`. */
  ghost predicate StaleParent(d: Disk, chain: seq<Block>, b: Block) {
    b.header.height > |chain| && IndexedParent(d, b)
  }

  /** The branch to `hash` passes no such block. */
  ghost predicate Clear(d: Disk, g: Block, chain: seq<Block>, hash: Hash)
    requires StoreOk(d, g) && hash in d.blocks
  {
    forall b :: b in Path(d, g, chain, hash) ==> !StaleParent(d, chain, b)
  }

  lemma IndexedExactlyWhen(d: Disk, chain: seq<Block>, b: Block)
    requires HeightsAt(d, chain) && b.header.height > 0
    ensures IndexedParent(d, b) <==> ForksHere(chain, b) || StaleParent(d, chain, b)
  {
    if b.header.height <= |chain| {
      assert d.BlockAt(b.header.height - 1) == Some(chain[b.header.height - 1]);
    }
  }

  lemma OnPath(d: Disk, g: Block, chain: seq<Block>, hash: Hash)
    requires StoreOk(d, g) && hash in d.blocks
    ensures var b, p := d.blocks[hash], Path(d, g, chain, hash);
            && (b.header.height == 0 || ForksHere(chain, b) ==> p == [b])
            && (b.header.height > 0 && !ForksHere(chain, b) ==>
                  && b.header.prevHash in d.blocks && d.blocks[b.header.prevHash].header.height < b.header.height
                  && p == Path(d, g, chain, b.header.prevHash) + [b])
            && b in p
  {
    assert StoredOk(d, g, hash);
  }

  lemma OnWalk(d: Disk, g: Block, hash: Hash)
    requires StoreOk(d, g) && hash in d.blocks
    ensures var b, w := d.blocks[hash], Walk(d, g, hash);
            && (b.header.height == 0 ==> b.Hash() == g.Hash())
            && (b.header.height == 0 || IndexedParent(d, b) ==> w == [b])
            && (b.header.height > 0 && !IndexedParent(d, b) ==>
                  && b.header.prevHash in d.blocks && d.blocks[b.header.prevHash].header.height < b.header.height
                  && w == Walk(d, g, b.header.prevHash) + [b])
  {
    assert StoredOk(d, g, hash);
  }

  lemma IndexedParentIs(d: Disk, b: Block)
    ensures IndexedParent(d, b) <==> b.header.height > 0 && d.BlockAt(b.header.height - 1).Some? && d.BlockAt(b.header.height - 1).value.Hash() == b.header.prevHash
  {
  }

  /** collectBranch walks to the highest common ancestor exactly when its branch is clear. When it is
      not, the walk stops too early, at a block above the tip, and reports its parent as the fork
      although that is not on the active chain. */
  lemma {:induction false} WalkExactlyPath(d: Disk, g: Block, chain: seq<Block>, hash: Hash)
    requires StoreOk(d, g) && HeightsAt(d, chain) && hash in d.blocks
    ensures Walk(d, g, hash) == Path(d, g, chain, hash) <==> Clear(d, g, chain, hash)
    ensures var w, p := Walk(d, g, hash), Path(d, g, chain, hash);
            && 0 < |w| <= |p| && w == p[|p| - |w|..]
            && (!Clear(d, g, chain, hash) ==> |w| < |p| && w[0].header.height > |chain| && !ForksHere(chain, w[0]))
    decreases d.blocks[hash].header.height
  {
    hide *;
    var b := d.blocks[hash];
    OnPath(d, g, chain, hash);
    OnWalk(d, g, hash);
    if b.header.height > 0 {
      IndexedExactlyWhen(d, chain, b);
      if !ForksHere(chain, b) {
        var prev := b.header.prevHash;
        WalkExactlyPath(d, g, chain, prev);
        ClearStep(d, g, chain, hash);
        SuffixGrows(Path(d, g, chain, prev), Walk(d, g, prev), b);
        StaleIsAbove(d, chain, b);
      } else {
        ClearAlone(d, g, chain, hash);
      }
    } else {
      ClearAlone(d, g, chain, hash);
    }
  }

  lemma SuffixGrows(q: seq<Block>, v: seq<Block>, b: Block)
    requires 0 < |v| <= |q| && v == q[|q| - |v|..]
    ensures (q + [b])[|q| - |v|..] == v + [b] && (v + [b] == q + [b] <==> v == q)
    ensures (v + [b])[0] == v[0] && (q + [b])[|q|..] == [b]
  {
    if v + [b] == q + [b] {
      assert v == (v + [b])[..|v|] && q == (q + [b])[..|q|];
    }
  }

  lemma StaleIsAbove(d: Disk, chain: seq<Block>, b: Block)
    ensures StaleParent(d, chain, b) ==> b.header.height > |chain| && !ForksHere(chain, b)
  {
  }

  lemma ClearStep(d: Disk, g: Block, chain: seq<Block>, hash: Hash)
    requires StoreOk(d, g) && hash in d.blocks && d.blocks[hash].header.height > 0 && !ForksHere(chain, d.blocks[hash])
    ensures d.blocks[hash].header.prevHash in d.blocks
    ensures Clear(d, g, chain, hash) <==> Clear(d, g, chain, d.blocks[hash].header.prevHash) && !StaleParent(d, chain, d.blocks[hash])
  {
    hide StoreOk, Path, StaleParent;
    OnPath(d, g, chain, hash);
    var b, q := d.blocks[hash], Path(d, g, chain, d.blocks[hash].header.prevHash);
    assert forall x :: x in q + [b] <==> x in q || x == b;
  }

  lemma ClearAlone(d: Disk, g: Block, chain: seq<Block>, hash: Hash)
    requires StoreOk(d, g) && hash in d.blocks && (d.blocks[hash].header.height == 0 || ForksHere(chain, d.blocks[hash]))
    ensures Clear(d, g, chain, hash) && !StaleParent(d, chain, d.blocks[hash])
  {
    hide StoreOk, Path;
    OnPath(d, g, chain, hash);
  }

  /** A height index that ends at the tip leaves every branch clear. */
  lemma ExactIsClear(d: Disk, g: Block, chain: seq<Block>, hash: Hash)
    requires StoreOk(d, g) && HeightsExact(d, chain) && hash in d.blocks
    ensures Clear(d, g, chain, hash)
  {
  }

  /** The entry right above the chain, if there is one, is not a child of its tip. */
  ghost predicate Torn(d: Disk, chain: seq<Block>)
    requires |chain| > 0
  {
    d.BlockAt(|chain|).Some? ==> d.BlockAt(|chain|).value.header.prevHash != chain[|chain| - 1].Hash()
  }

  /** Nothing changed in the height index below `n`. */
  ghost predicate SameBelow(d: Disk, d': Disk, n: nat) {
    forall h: nat :: h < n ==> (h in d'.heights <==> h in d.heights) && (h in d.heights ==> d'.heights[h] == d.heights[h])
  }

  lemma SameBelowNext(d: Disk, d': Disk, d'': Disk, n: nat, h: nat, hash: Hash)
    requires SameBelow(d, d', n) && h >= n && (d''.heights == d'.heights || d''.heights == d'.heights[h := hash])
    ensures SameBelow(d, d'', n)
  {
  }

  lemma SameBelowSelf(d: Disk, d': Disk, n: nat)
    requires d'.heights == d.heights
    ensures SameBelow(d, d', n)
  {
  }

  /** Nothing changed in the height index from `n` on. */
  ghost predicate SameAbove(d: Disk, d': Disk, n: nat) {
    forall h :: h >= n ==> (h in d'.heights <==> h in d.heights) && (h in d.heights ==> d'.heights[h] == d.heights[h])
  }

  lemma SameAboveChain(d: Disk, d': Disk, d'': Disk, n: nat, m: nat)
    requires SameAbove(d, d', n) && SameAbove(d', d'', m) && n <= m
    ensures SameAbove(d, d'', m)
  {
  }

  lemma SameAboveOf(d: Disk, d': Disk, n: nat)
    requires d'.heights == d.heights
    ensures SameAbove(d, d', n)
  {
  }

  lemma SameAboveNext(d: Disk, d': Disk, n: nat, h: Hash)
    requires d'.heights == d.heights[n := h]
    ensures SameAbove(d, d', n + 1)
  {
  }

  lemma ExactStays(d: Disk, d': Disk, chain: seq<Block>, target: seq<Block>)
    requires HeightsExact(d, chain) && |target| >= |chain| && SameAbove(d, d', |target|)
    ensures HeightsExact(d', target)
  {
  }

  /** ... and already with one the index is torn above it, if the new tip was not on the old chain. */
  lemma CutBackTears(rules: Rules, g: Block, d: Disk, last: seq<Block>, d': Disk, chain: seq<Block>)
    requires StoreOk(d, g) && ChainOk(rules, g, last) && HeightsAt(d, last) && d'.blocks == d.blocks && SameAbove(d, d', |chain|)
    requires 0 < |chain| < |last| && last[|chain| - 1].Hash() != chain[|chain| - 1].Hash()
    ensures Torn(d', chain)
  {
    hide ChainOk, StoreOk;
    StoredUnderHash(d, g, last, |chain|);
    ChainHeights(rules, g, last, |chain|);
  }

  /** A chain cut back by two blocks or more leaves such an entry: the first of its lost blocks is
      still indexed, and the second hangs on it. */
  lemma {:induction false} CutBackLeavesStale(rules: Rules, g: Block, d: Disk, chain: seq<Block>, d': Disk, n: nat)
    requires StoreOk(d, g) && StoreOk(d', g) && ChainOk(rules, g, chain) && HeightsAt(d, chain)
    requires d'.blocks == d.blocks && SameAbove(d, d', n) && 0 < n <= |chain| - 2
    ensures var lost := chain[n + 1];
            && lost.Hash() in d'.blocks && d'.blocks[lost.Hash()] == lost
            && forall kept: seq<Block> :: |kept| == n ==> StaleParent(d', kept, lost) && !Clear(d', g, kept, lost.Hash())
  {
    hide ChainOk, StoreOk, Path;
    var lost := chain[n + 1];
    StoredUnderHash(d, g, chain, n);
    StoredUnderHash(d, g, chain, n + 1);
    ChainHeights(rules, g, chain, n + 1);
    forall kept: seq<Block> | |kept| == n
      ensures StaleParent(d', kept, lost) && !Clear(d', g, kept, lost.Hash())
    {
      OnPath(d', g, kept, lost.Hash());
    }
  }

  /** The chain that follows `chain` up to the fork and then the branch. */
  ghost function Switch(chain: seq<Block>, path: seq<Block>): seq<Block> {
    if |path| > 0 && path[0].header.height <= |chain| then chain[..path[0].header.height] + path else chain
  }

  /** The fork point plus a non-empty prefix of the branch. */
  ghost predicate PartWay(chain: seq<Block>, path: seq<Block>, persisted: seq<Block>) {
    exists k :: 0 < k <= |path| && persisted == Switch(chain, path[..k])
  }

  /** A switch from `last` stopped at block k of the branch: before it, or with it. */
  ghost predicate ReachedAt(last: seq<Block>, base: seq<Block>, path: seq<Block>, persisted: seq<Block>, k: nat)
    requires k < |path|
  {
    persisted == base + path[..k + 1] || persisted == (if k == 0 then last else base + path[..k])
  }

  lemma SwitchIs(chain: seq<Block>, path: seq<Block>)
    requires |path| > 0 && path[0].header.height <= |chain|
    ensures Switch(chain, path) == chain[..path[0].header.height] + path
    ensures |Switch(chain, path)| == path[0].header.height + |path|
  {
  }

  /** The last block of a part-way chain is one of the branch: either its tip or none of the old chain's. */
  lemma PartWayTip(d: Disk, g: Block, last: seq<Block>, hash: Hash, path: seq<Block>, chain: seq<Block>)
    requires hash in d.blocks && IsBranch(d, g, last, hash, path) && path[0].header.height <= |last| && PartWay(last, path, chain)
    ensures |chain| > 0 && (chain[|chain| - 1] == d.blocks[hash] || chain[|chain| - 1] !in last)
    ensures chain[|chain| - 1].Hash() in d.blocks && d.blocks[chain[|chain| - 1].Hash()] == chain[|chain| - 1]
  {
    hide ForksHere, BranchBlockOk;
    var k :| 0 < k <= |path| && chain == Switch(last, path[..k]);
    assert path[..k][0] == path[0];
    assert chain[|chain| - 1] == path[k - 1];
  }

  lemma PartWayAt(chain: seq<Block>, path: seq<Block>, k: nat)
    requires |path| > 0 && path[0].header.height <= |chain| && k <= |path|
    ensures k > 0 ==> PartWay(chain, path, chain[..path[0].header.height] + path[..k])
  {
    if k > 0 {
      assert chain[..path[0].header.height] + path[..k] == Switch(chain, path[..k]);
    }
  }

  /** The blocks from `n` on each follow the one before. */
  ghost predicate Following(target: seq<Block>, n: nat) {
    0 < n && forall j :: n <= j < |target| ==> FollowsAt(target, j)
  }

  ghost predicate FollowsAt(target: seq<Block>, j: nat)
    requires 0 < j < |target|
  {
    target[j].header.height == j && target[j].header.prevHash == target[j - 1].Hash() && Tagged(target[j])
  }

  lemma FollowingAt(target: seq<Block>, n: nat, j: nat)
    requires Following(target, n) && n <= j < |target|
    ensures target[j].header.height == j && target[j].header.prevHash == target[j - 1].Hash() && Tagged(target[j])
  {
    assert FollowsAt(target, j);
  }

  lemma MakeFollowing(base: seq<Block>, path: seq<Block>)
    requires |base| > 0 && |path| > 0 && Linked(path)
    requires path[0].header.height == |base| && path[0].header.prevHash == base[|base| - 1].Hash()
    requires forall i :: 0 <= i < |path| ==> BranchBlockOk(path[i])
    ensures Following(base + path, |base|)
  {
    hide Tagged;
    var target := base + path;
    forall j | |base| <= j < |target|
      ensures FollowsAt(target, j)
    {
      LinkedHeights(path, j - |base|);
      assert BranchBlockOk(path[j - |base|]);
    }
  }

  lemma TargetHeights(rules: Rules, g: Block, target: seq<Block>, n: nat)
    requires n <= |target| && ChainOk(rules, g, target[..n]) && Following(target, n)
    ensures Heighted(target)
  {
    hide ChainOk, Tagged;
    forall j | 0 <= j < |target|
      ensures target[j].header.height == j
    {
      if j < n {
        ChainHeights(rules, g, target[..n], j);
      } else {
        assert FollowsAt(target, j);
      }
    }
  }

  /** Every block stands at its own height. */
  ghost predicate Heighted(chain: seq<Block>) {
    forall i :: 0 <= i < |chain| ==> chain[i].header.height == i
  }

  lemma ChainIsHeighted(rules: Rules, g: Block, chain: seq<Block>)
    requires ChainOk(rules, g, chain)
    ensures Heighted(chain)
  {
    hide ChainOk;
    forall i | 0 <= i < |chain|
      ensures chain[i].header.height == i
    {
      ChainHeights(rules, g, chain, i);
    }
  }

  lemma ReversedEmpty<T>()
    ensures Reversed<T>([]) == []
  {
  }

  lemma ReversedSnoc<T>(s: seq<T>, x: T)
    ensures Reversed(s + [x]) == [x] + Reversed(s)
  {
    assert (s + [x])[..|s|] == s;
  }
}
