/** What the database holds when it represents a chain, and the branch structure of the block
    store: the vocabulary in which internal/chain is specified. */
module ChainSpec {
  import opened Primitives
  import opened Types
  import opened Ledger
  import opened BlockRules
  import opened StateRules
  import opened Replay
  import opened Storage
  import opened UtxoStore
  import opened BlockStore

  // ---------------------------------------------------------------- the block store

  ghost predicate ParentIn(d: Disk, b: Block) {
    b.header.prevHash in d.blocks && d.blocks[b.header.prevHash].header.height + 1 == b.header.height
  }

  ghost predicate StoredOk(d: Disk, g: Block, h: Hash)
    requires h in d.blocks
  {
    var b := d.blocks[h];
    && b.Hash() == h
    && (b.header.height == 0 ==> b == g)
    && (b.header.height > 0 ==> ParentIn(d, b) && Tagged(b) && 1 <= b.header.difficulty <= 2)
  }

  /** Blocks are stored under their own hash, genesis is the only root, and every other block was
      stored after its parent, carrying a proof-of-authority difficulty. */
  ghost predicate StoreOk(d: Disk, g: Block) {
    && g.Hash() in d.blocks && d.blocks[g.Hash()] == g && g.header.height == 0
    && forall h :: h in d.blocks ==> StoredOk(d, g, h)
  }

  ghost predicate HeightsAt(d: Disk, chain: seq<Block>) {
    forall i :: 0 <= i < |chain| ==> d.BlockAt(i) == Some(chain[i])
  }

  ghost predicate HeightsExact(d: Disk, chain: seq<Block>) {
    forall h :: h in d.heights ==> h < |chain|
  }

  // ---------------------------------------------------------------- the regions against the fold

  ghost predicate LedgerAt(d: Disk, chain: seq<Block>) {
    d.utxos == Fold(chain).utxos && IndexesOk(d)
  }

  ghost function UndoOf(chain: seq<Block>, i: nat): Undo
    requires i < |chain|
  {
    UndoFor(Fold(chain[..i]).utxos, chain[i], Reward(Fold(chain[..i]).utxos, chain[i]))
  }

  ghost predicate UndoRight(d: Disk, chain: seq<Block>, i: nat)
    requires i < |chain|
  {
    chain[i].Hash() in d.undos ==> d.undos[chain[i].Hash()] == UndoOf(chain, i)
  }

  /** Every undo record kept for the chain is the right one. */
  ghost predicate UndosRight(d: Disk, chain: seq<Block>) {
    forall i :: 1 <= i < |chain| ==> UndoRight(d, chain, i)
  }

  ghost predicate UndosComplete(d: Disk, chain: seq<Block>) {
    forall i :: 1 <= i < |chain| ==> chain[i].Hash() in d.undos
  }

  ghost predicate TipIs(d: Disk, chain: seq<Block>)
    requires |chain| > 0
  {
    d.tip == Some(chain[|chain| - 1].Hash()) && d.height == Some(|chain| - 1)
  }

  ghost predicate TotalsAt(d: Disk, chain: seq<Block>) {
    SupplyOf(d) == Fold(chain).supply && CumDiffOf(d) == Fold(chain).cumDiff
  }

  /** The database of a node that has `chain` as its active chain and nothing in flight. */
  ghost predicate DiskAt(rules: Rules, g: Block, d: Disk, chain: seq<Block>) {
    && StoreOk(d, g)
    && ChainOk(rules, g, chain)
    && HeightsAt(d, chain)
    && LedgerAt(d, chain)
    && UndosRight(d, chain)
    && TipIs(d, chain)
    && TotalsAt(d, chain)
    && d.checkpoint.None?
  }

  /** A database from which a restart can rebuild `chain`: nothing is assumed of the unspent
      outputs, the totals or the undo records. */
  ghost predicate Recoverable(rules: Rules, g: Block, d: Disk, chain: seq<Block>) {
    && StoreOk(d, g)
    && ChainOk(rules, g, chain)
    && HeightsAt(d, chain)
    && TipIs(d, chain)
    && d.checkpoint.Some?
  }

  // ---------------------------------------------------------------- facts about stored chains

  lemma StoredUnderHash(d: Disk, g: Block, chain: seq<Block>, i: nat)
    requires StoreOk(d, g) && HeightsAt(d, chain) && i < |chain|
    ensures i in d.heights && d.heights[i] == chain[i].Hash()
    ensures chain[i].Hash() in d.blocks && d.blocks[chain[i].Hash()] == chain[i]
  {
    assert d.BlockAt(i) == Some(chain[i]);
    assert StoredOk(d, g, d.heights[i]);
  }

  lemma ChainHashesDistinct(rules: Rules, d: Disk, g: Block, chain: seq<Block>, i: nat, j: nat)
    requires StoreOk(d, g) && ChainOk(rules, g, chain) && HeightsAt(d, chain)
    requires i < |chain| && j < |chain| && chain[i].Hash() == chain[j].Hash()
    ensures i == j
  {
    StoredUnderHash(d, g, chain, i);
    StoredUnderHash(d, g, chain, j);
    ChainHeights(rules, g, chain, i);
    ChainHeights(rules, g, chain, j);
  }

  /** Two valid chains with the same tip in one growing block store are the same chain. */
  lemma {:induction false} TipDeterminesChain(rules: Rules, rules': Rules, d: Disk, g: Block, a: seq<Block>, b: seq<Block>)
    requires StoreOk(d, g) && ChainOk(rules, g, a) && ChainOk(rules', g, b)
    requires Stored(d, a) && Stored(d, b)
    requires a[|a| - 1].Hash() == b[|b| - 1].Hash()
    ensures a == b
    decreases |a|
  {
    hide ChainOk, CanExtend, Acceptable, StoreOk, BlockOk, GenesisOk, StateValid, Fold, AllTxs, Stored, Tagged;
    LastBlock(rules, g, a);
    LastBlock(rules', g, b);
    var n := |a| - 1;
    StoredAt(d, a, n);
    StoredAt(d, b, |b| - 1);
    ChainHeights(rules, g, a, n);
    ChainHeights(rules', g, b, |b| - 1);
    assert |a| == |b|;
    if n > 0 {
      StoredPrefix(d, a, n);
      StoredPrefix(d, b, n);
      TipDeterminesChain(rules, rules', d, g, a[..n], b[..n]);
    }
  }

  lemma StoredAt(d: Disk, path: seq<Block>, i: nat)
    requires Stored(d, path) && i < |path|
    ensures path[i].Hash() in d.blocks && d.blocks[path[i].Hash()] == path[i]
  {
  }

  lemma StoredPrefix(d: Disk, path: seq<Block>, n: nat)
    requires Stored(d, path) && n <= |path|
    ensures Stored(d, path[..n])
  {
  }

  /** So a tip whose chain has more work than another's is a different tip: since every move of
      the tip raises the work, no tip is ever visited twice. */
  lemma {:induction false} MoreWorkNewTip(rules: Rules, d: Disk, g: Block, a: seq<Block>, b: seq<Block>)
    requires StoreOk(d, g) && ChainOk(rules, g, a) && ChainOk(rules, g, b)
    requires Stored(d, a) && Stored(d, b)
    requires Fold(a).cumDiff < Fold(b).cumDiff
    ensures a[|a| - 1].Hash() != b[|b| - 1].Hash()
  {
    if a[|a| - 1].Hash() == b[|b| - 1].Hash() {
      TipDeterminesChain(rules, rules, d, g, a, b);
    }
  }

  // ---------------------------------------------------------------- branches

  /** The parent of `b` is on the main chain. */
  predicate ForksHere(chain: seq<Block>, b: Block) {
    0 < b.header.height <= |chain| && chain[b.header.height - 1].Hash() == b.header.prevHash
  }

  /** The blocks from the highest ancestor shared with `chain` (exclusive) up to `hash`. */
  ghost function Path(d: Disk, g: Block, chain: seq<Block>, hash: Hash): (r: seq<Block>)
    requires StoreOk(d, g) && hash in d.blocks
    decreases d.blocks[hash].header.height
  {
    var b := d.blocks[hash];
    assert StoredOk(d, g, hash);
    if b.header.height == 0 || ForksHere(chain, b) then [b]
    else Path(d, g, chain, b.header.prevHash) + [b]
  }

  ghost predicate Linked(path: seq<Block>) {
    forall i :: 0 < i < |path| ==> path[i].header.prevHash == path[i - 1].Hash() && path[i].header.height == path[i - 1].header.height + 1
  }

  ghost predicate Stored(d: Disk, path: seq<Block>) {
    forall i :: 0 <= i < |path| ==> path[i].Hash() in d.blocks && d.blocks[path[i].Hash()] == path[i]
  }

  ghost predicate BranchBlockOk(b: Block) {
    b.header.height > 0 ==> Tagged(b) && 1 <= b.header.difficulty <= 2
  }

  /** `p` is exactly the path from the highest ancestor shared with `chain` to `hash`: it hangs on
      the main chain by its first block and by no other, and it never reaches below genesis. */
  ghost predicate IsBranch(d: Disk, g: Block, chain: seq<Block>, hash: Hash, p: seq<Block>)
    requires hash in d.blocks
  {
    && |p| > 0 && p[|p| - 1] == d.blocks[hash] && Linked(p) && Stored(d, p)
    && (if hash == g.Hash() then p == [g] else ForksHere(chain, p[0]))
    && (forall i :: 0 < i < |p| ==> !ForksHere(chain, p[i]))
    && (forall i :: 0 <= i < |p| - 1 ==> p[i] !in chain)
    && (forall i :: 0 <= i < |p| ==> BranchBlockOk(p[i]))
  }

  lemma OffChain(rules: Rules, g: Block, chain: seq<Block>, prev: Block, b: Block)
    requires ChainOk(rules, g, chain)
    requires b.header.prevHash == prev.Hash() && b.header.height == prev.header.height + 1
    requires !ForksHere(chain, b)
    ensures prev !in chain
  {
    hide ChainOk;
    forall k | 0 <= k < |chain|
      ensures chain[k] != prev
    {
      ChainHeights(rules, g, chain, k);
    }
  }

  lemma GenesisChildForks(rules: Rules, g: Block, chain: seq<Block>, b: Block)
    requires ChainOk(rules, g, chain) && b.header.prevHash == g.Hash() && b.header.height == 1
    ensures ForksHere(chain, b)
  {
  }

  lemma BranchGrows(d: Disk, g: Block, chain: seq<Block>, prev: Hash, q: seq<Block>, hash: Hash)
    requires prev in d.blocks && hash in d.blocks && IsBranch(d, g, chain, prev, q)
    requires var b := d.blocks[hash];
             && b.Hash() == hash && hash != g.Hash() && prev != g.Hash()
             && b.header.prevHash == prev && d.blocks[prev].Hash() == prev && b.header.height == d.blocks[prev].header.height + 1
             && !ForksHere(chain, b) && d.blocks[prev] !in chain && BranchBlockOk(b)
    ensures IsBranch(d, g, chain, hash, q + [d.blocks[hash]])
  {
    hide BranchBlockOk, ForksHere;
    var p := q + [d.blocks[hash]];
    assert p[0] == q[0];
  }

  lemma {:induction false} PathIsBranch(rules: Rules, d: Disk, g: Block, chain: seq<Block>, hash: Hash)
    requires StoreOk(d, g) && ChainOk(rules, g, chain) && hash in d.blocks
    ensures IsBranch(d, g, chain, hash, Path(d, g, chain, hash))
    decreases d.blocks[hash].header.height
  {
    hide ChainOk, CanExtend, Acceptable, BlockOk, GenesisOk, Tagged;
    var b := d.blocks[hash];
    assert StoredOk(d, g, hash) && StoredOk(d, g, g.Hash());
    if b.header.height > 0 && !ForksHere(chain, b) {
      var prev := b.header.prevHash;
      assert StoredOk(d, g, prev);
      if prev == g.Hash() {
        GenesisChildForks(rules, g, chain, b);
      }
      PathIsBranch(rules, d, g, chain, prev);
      OffChain(rules, g, chain, d.blocks[prev], b);
      BranchGrows(d, g, chain, prev, Path(d, g, chain, prev), hash);
    } else {
      hide StoreOk;
      assert Path(d, g, chain, hash) == [b];
    }
  }

  lemma TailOfBranch(d: Disk, g: Block, chain: seq<Block>, hash: Hash, p: seq<Block>, n: nat)
    requires hash in d.blocks && IsBranch(d, g, chain, hash, p) && 0 < n <= |p|
    ensures Linked(p[|p| - n..]) && Stored(d, p[|p| - n..])
  {
    hide ForksHere, BranchBlockOk;
  }

  lemma LinkedHeights(path: seq<Block>, i: nat)
    requires Linked(path) && i < |path|
    ensures path[i].header.height == path[0].header.height + i
    decreases i
  {
    if i > 0 {
      LinkedHeights(path, i - 1);
    }
  }

  // ---------------------------------------------------------------- work

  function DifficultyOf(b: Block): nat {
    b.header.difficulty
  }

  /** Comparing branches above a fork is comparing whole chains: the work below cancels out. */
  lemma {:induction false} WorkSplits(chain: seq<Block>, n: nat)
    requires n <= |chain|
    ensures Fold(chain).cumDiff == Fold(chain[..n]).cumDiff + Sum(chain[n..], DifficultyOf)
    decreases |chain|
  {
    hide Fold, Sum;
    if n == |chain| {
      assert chain[..n] == chain;
      NoWork();
    } else {
      var m := |chain| - 1;
      WorkSplits(chain[..m], n);
      assert chain[..m][..n] == chain[..n];
      var above := chain[n..];
      assert chain[..m][n..] == above[..m - n] && above[m - n] == chain[m];
      SumPrefix(above, DifficultyOf, m - n);
      assert above[..m - n + 1] == above;
      FoldPrefix(chain, m);
      assert chain[..m + 1] == chain;
      WorkOf(Fold(chain[..m]), chain[m]);
    }
  }

  lemma NoWork()
    ensures Sum([], DifficultyOf) == 0
  {
  }

  lemma WorkOf(s: State, b: Block)
    ensures Advance(s, b).cumDiff == s.cumDiff + DifficultyOf(b)
  {
  }

  lemma {:induction false} BranchWorkIsChainWork(chain: seq<Block>, path: seq<Block>, n: nat)
    requires n <= |chain|
    ensures Fold(chain[..n] + path).cumDiff > Fold(chain).cumDiff <==> Sum(path, DifficultyOf) > Sum(chain[n..], DifficultyOf)
  {
    WorkSplits(chain, n);
    var all := chain[..n] + path;
    WorkSplits(all, n);
    assert all[..n] == chain[..n] && all[n..] == path;
  }

  lemma {:induction false} SumBounded(s: seq<Block>, bound: nat)
    requires forall i :: 0 <= i < |s| ==> s[i].header.difficulty <= bound
    ensures Sum(s, DifficultyOf) <= bound * |s|
  {
    if |s| > 0 {
      SumBounded(s[..|s| - 1], bound);
    }
  }

  // ---------------------------------------------------------------- one block forward, one block back

  lemma {:induction false} TxIndexKeys(chain: seq<Block>)
    ensures forall h :: h in TxIndex(chain) ==> exists t :: t in AllTxs(chain) && TxHash(t) == h
  {
    if |chain| > 0 {
      var n := |chain| - 1;
      TxIndexKeys(chain[..n]);
      forall h | h in TxIndex(chain)
        ensures exists t :: t in AllTxs(chain) && TxHash(t) == h
      {
        if h in TxEntries(chain[n]) {
          var i :| 0 <= i < |chain[n].txs| && TxHashes(chain[n].txs)[i] == h;
          assert chain[n].txs[i] in AllTxs(chain);
        } else {
          assert h in TxIndex(chain[..n]);
          var t :| t in AllTxs(chain[..n]) && TxHash(t) == h;
          assert t in AllTxs(chain);
        }
      }
    }
  }

  lemma EntriesRemoved(m: map<Hash, (nat, Hash)>, b: Block)
    requires forall h :: h in m ==> h !in TxHashes(b.txs)
    ensures (m + TxEntries(b)) - Elements(TxHashes(b.txs)) == m
  {
  }

  /** Removing a block's own entries from the transaction index leaves the index of the chain below. */
  lemma {:induction false} TxIndexReverts(rules: Rules, g: Block, chain: seq<Block>)
    requires TxHashSound() && ChainOk(rules, g, chain) && |chain| > 1
    ensures TxIndex(chain) - Elements(TxHashes(chain[|chain| - 1].txs)) == TxIndex(chain[..|chain| - 1])
  {
    hide ChainOk, CanExtend, Acceptable, BlockOk, GenesisOk, StateValid, Snapshot, DistinctHashes, KeysOk;
    var n := |chain| - 1;
    var b := chain[n];
    LastBlock(rules, g, chain);
    NextBlockFresh(rules, g, chain[..n], b);
    TxIndexKeys(chain[..n]);
    forall h | h in TxIndex(chain[..n])
      ensures h !in TxHashes(b.txs)
    {
      var t :| t in AllTxs(chain[..n]) && TxHash(t) == h;
      assert forall i :: 0 <= i < |b.txs| ==> b.txs[i] in b.txs && TxHashes(b.txs)[i] != h;
    }
    EntriesRemoved(TxIndex(chain[..n]), b);
  }

  /** The outputs an undo record puts back never meet a different output under their outpoint. */
  ghost predicate Restorable(m: UtxoMap, spent: seq<Utxo>) {
    && (forall u :: u in spent ==> u.outpoint !in m)
    && (forall u, v :: u in spent && v in spent && u.outpoint == v.outpoint ==> u == v)
  }

  lemma {:induction false} BlockReverts(rules: Rules, g: Block, chain: seq<Block>)
    requires TxHashSound() && ChainOk(rules, g, chain) && |chain| > 1
    ensures var n := |chain| - 1; var undo := UndoOf(chain, n); var m := Fold(chain[..n]).utxos;
            && Revert(Fold(chain).utxos, undo) == m
            && Restorable(Fold(chain).utxos - Elements(undo.created), undo.spent)
            && (forall u :: u in undo.spent ==> u.outpoint in m && m[u.outpoint] == u)
            && undo.txHashes == TxHashes(chain[n].txs)
            && undo.reward <= Fold(chain).supply
            && Fold(chain[..n]).supply == Fold(chain).supply - undo.reward
            && chain[n].header.difficulty <= Fold(chain).cumDiff
            && Fold(chain[..n]).cumDiff == Fold(chain).cumDiff - chain[n].header.difficulty
            && Registrations(chain[n]) <= Fold(chain).registered
            && Fold(chain[..n]).registered == Fold(chain).registered - Registrations(chain[n])
  {
    var n := |chain| - 1;
    var b := chain[n];
    LastBlock(rules, g, chain);
    NextBlockFresh(rules, g, chain[..n], b);
    var m := Fold(chain[..n]).utxos;
    UndoInvertsApply(m, b, Reward(m, b));
    AfterPrefix(m, b.txs, b.header.height);
    CreatedElements(b.txs);
    SpentAreOriginal(m, b.txs, b.header.height);
  }

  // ---------------------------------------------------------------- rebuilding the indexes

  /** Walking the PrevHash links from the tip of a stored valid chain finds that chain. */
  lemma {:induction false} WalkFindsChain(rules: Rules, g: Block, d: Disk, chain: seq<Block>)
    requires ChainOk(rules, g, chain) && Stored(d, chain)
    ensures Ancestors(d, chain[|chain| - 1].Hash(), |chain| - 1) == Some(chain)
    decreases |chain|
  {
    hide ChainOk, CanExtend, Acceptable, BlockOk, GenesisOk, StateValid;
    LastBlock(rules, g, chain);
    var n := |chain| - 1;
    ChainHeights(rules, g, chain, n);
    if n > 0 {
      WalkFindsChain(rules, g, d, chain[..n]);
      assert chain[..n] + [chain[n]] == chain;
    }
  }

  /** RebuildIndexes makes the height index agree with the PrevHash walk, whatever it said before. */
  lemma {:induction false} IndexesRebuilt(rules: Rules, g: Block, d: Disk, chain: seq<Block>, d': Disk)
    requires ChainOk(rules, g, chain) && Stored(d, chain) && TipIs(d, chain)
    requires d'.blocks == d.blocks
    requires var p := Ancestors(d, d.tip.value, d.height.value);
             p.Some? ==> d'.heights == d.heights + HeightIndex(p.value) && d'.txs == d.txs + TxIndex(p.value)
    ensures HeightsAt(d', chain)
    ensures d'.txs == d.txs + TxIndex(chain)
    ensures HeightsExact(d, chain) ==> HeightsExact(d', chain)
  {
    hide ChainOk;
    WalkFindsChain(rules, g, d, chain);
    forall i | 0 <= i < |chain|
      ensures d'.BlockAt(i) == Some(chain[i])
    {
      assert d'.heights[i] == chain[i].Hash();
    }
  }

  /** The transaction index of a valid chain sends every transaction to the block that holds it. */
  lemma {:induction false} TxIndexLocates(rules: Rules, g: Block, chain: seq<Block>, i: nat, t: Tx)
    requires TxHashSound() && ChainOk(rules, g, chain) && i < |chain| && t in chain[i].txs
    ensures TxHash(t) in TxIndex(chain) && TxIndex(chain)[TxHash(t)] == (i, chain[i].Hash())
    decreases |chain|
  {
    hide *;
    var n := |chain| - 1;
    var b := chain[n];
    ChainHeights(rules, g, chain, n);
    IndexStep(chain);
    if i == n {
      ListedIn(b, t);
    } else {
      LastBlock(rules, g, chain);
      TxIndexLocates(rules, g, chain[..n], i, t);
      NextBlockFresh(rules, g, chain[..n], b);
      InAllTxs(chain[..n], i, t);
      NotListed(b, t);
    }
  }

  lemma IndexStep(chain: seq<Block>)
    requires |chain| > 0
    ensures TxIndex(chain) == TxIndex(chain[..|chain| - 1]) + TxEntries(chain[|chain| - 1])
  {
  }

  lemma ListedIn(b: Block, t: Tx)
    requires t in b.txs
    ensures TxHash(t) in TxEntries(b) && TxEntries(b)[TxHash(t)] == (b.header.height, b.Hash())
  {
    var k :| 0 <= k < |b.txs| && b.txs[k] == t;
    assert TxHashes(b.txs)[k] == TxHash(t);
  }

  lemma NotListed(b: Block, t: Tx)
    requires forall u :: u in b.txs ==> TxHash(u) != TxHash(t)
    ensures TxHash(t) !in TxEntries(b)
  {
    assert forall k :: 0 <= k < |b.txs| ==> b.txs[k] in b.txs && TxHashes(b.txs)[k] != TxHash(t);
  }

  lemma {:induction false} InAllTxs(chain: seq<Block>, i: nat, t: Tx)
    requires i < |chain| && t in chain[i].txs
    ensures t in AllTxs(chain)
  {
    if i < |chain| - 1 {
      InAllTxs(chain[..|chain| - 1], i, t);
    }
  }
}
