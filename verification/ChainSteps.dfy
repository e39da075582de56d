/** How single database updates move a disk from one chain to the next: the proof steps behind
    the methods of the chain. */
module ChainSteps {
  import opened Primitives
  import opened Types
  import opened BlockRules
  import opened StateRules
  import opened Replay
  import opened Storage
  import opened UtxoStore
  import opened BlockStore
  import opened ChainSpec

  /** The disk after CommitBlock put `b` on top of `chain`. */
  ghost function CommittedOn(d: Disk, chain: seq<Block>, b: Block): Disk {
    var s := Fold(chain + [b]);
    Committed(d, b, UndoOf(chain + [b], |chain|), s.supply, s.cumDiff)
  }

  /** `b` may be stored: its hash is free, or it is the block already there. */
  ghost predicate Storable(d: Disk, b: Block) {
    b.Hash() in d.blocks ==> d.blocks[b.Hash()] == b
  }

  lemma {:induction false} StoreGrows(d: Disk, g: Block, b: Block, d': Disk)
    requires StoreOk(d, g) && Storable(d, b)
    requires b.header.height > 0 && ParentIn(d, b) && Tagged(b) && 1 <= b.header.difficulty <= 2
    requires d'.blocks == d.blocks[b.Hash() := b]
    ensures StoreOk(d', g)
    ensures forall h :: h in d.blocks ==> h in d'.blocks && d'.blocks[h] == d.blocks[h]
  {
    hide Tagged, StoredOk;
    assert StoredOk(d, g, g.Hash());
    forall h | h in d'.blocks
      ensures StoredOk(d', g, h)
    {
      StillStoredOk(d, g, b, d', h);
    }
  }

  lemma StillStoredOk(d: Disk, g: Block, b: Block, d': Disk, h: Hash)
    requires Storable(d, b) && b.header.height > 0 && ParentIn(d, b) && Tagged(b) && 1 <= b.header.difficulty <= 2
    requires d'.blocks == d.blocks[b.Hash() := b] && h in d'.blocks
    requires h in d.blocks ==> StoredOk(d, g, h)
    requires forall k :: k in d.blocks ==> d'.blocks[k] == d.blocks[k]
    ensures StoredOk(d', g, h)
  {
    hide Tagged;
  }

  lemma {:induction false} HeightsGrow(rules: Rules, d: Disk, g: Block, chain: seq<Block>, b: Block, d': Disk)
    requires StoreOk(d, g) && HeightsAt(d, chain) && Storable(d, b) && b.header.height == |chain|
    requires d'.blocks == d.blocks[b.Hash() := b] && d'.heights == d.heights[|chain| := b.Hash()]
    ensures HeightsAt(d', chain + [b])
  {
    forall i | 0 <= i < |chain| + 1
      ensures d'.BlockAt(i) == Some((chain + [b])[i])
    {
      if i < |chain| {
        StoredUnderHash(d, g, chain, i);
      }
    }
  }

  lemma UndoOfPrefix(chain: seq<Block>, b: Block, i: nat)
    requires i < |chain|
    ensures UndoOf(chain + [b], i) == UndoOf(chain, i)
  {
    assert (chain + [b])[..i] == chain[..i];
  }

  lemma {:induction false} NotOnChain(rules: Rules, d: Disk, g: Block, chain: seq<Block>, b: Block, i: nat)
    requires StoreOk(d, g) && ChainOk(rules, g, chain) && HeightsAt(d, chain) && Storable(d, b)
    requires b.header.height == |chain| && i < |chain|
    ensures chain[i].Hash() != b.Hash()
  {
    StoredUnderHash(d, g, chain, i);
    ChainHeights(rules, g, chain, i);
  }

  lemma {:induction false} UndosGrow(rules: Rules, d: Disk, g: Block, chain: seq<Block>, b: Block, d': Disk)
    requires StoreOk(d, g) && ChainOk(rules, g, chain) && HeightsAt(d, chain) && Storable(d, b)
    requires b.header.height == |chain| && UndosRight(d, chain)
    requires d'.undos == d.undos[b.Hash() := UndoOf(chain + [b], |chain|)]
    ensures UndosRight(d', chain + [b])
    ensures UndosComplete(d, chain) ==> UndosComplete(d', chain + [b])
  {
    hide ChainOk, StoreOk;
    var all := chain + [b];
    forall i | 1 <= i < |all|
      ensures UndoRight(d', all, i)
    {
      if i < |chain| {
        NotOnChain(rules, d, g, chain, b, i);
        UndoOfPrefix(chain, b, i);
        assert UndoRight(d, chain, i);
      }
    }
  }

  lemma TxIndexGrows(chain: seq<Block>, b: Block)
    ensures TxIndex(chain + [b]) == TxIndex(chain) + TxEntries(b)
  {
    assert (chain + [b])[..|chain|] == chain;
  }

  lemma ExtensionFacts(rules: Rules, g: Block, d: Disk, chain: seq<Block>, b: Block)
    requires StoreOk(d, g) && ChainOk(rules, g, chain) && HeightsAt(d, chain) && CanExtend(rules, chain, b)
    ensures b.header.height == |chain| > 0 && ParentIn(d, b) && Tagged(b)
  {
    hide StoreOk, HeightsAt, BlockOk, StateValid;
    StoredUnderHash(d, g, chain, |chain| - 1);
    ChainHeights(rules, g, chain, |chain| - 1);
  }

  /** Committing a block that the rules accept moves the disk from one valid chain to the next. */
  lemma {:induction false} CommitAdvances(rules: Rules, g: Block, d: Disk, chain: seq<Block>, b: Block, d': Disk)
    requires StoreOk(d, g) && ChainOk(rules, g, chain) && HeightsAt(d, chain) && UndosRight(d, chain)
    requires CanExtend(rules, chain, b) && Storable(d, b) && 1 <= b.header.difficulty <= 2
    requires d'.utxos == Fold(chain + [b]).utxos && IndexesOk(d')
    requires d' == CommittedOn(d, chain, b).(utxos := d'.utxos, addrs := d'.addrs, stakes := d'.stakes)
    ensures ChainOk(rules, g, chain + [b])
    ensures StoreOk(d', g) && HeightsAt(d', chain + [b]) && LedgerAt(d', chain + [b]) && UndosRight(d', chain + [b])
    ensures TipIs(d', chain + [b]) && TotalsAt(d', chain + [b])
    ensures UndosComplete(d, chain) ==> UndosComplete(d', chain + [b])
    ensures d.txs == TxIndex(chain) ==> d'.txs == TxIndex(chain + [b])
    ensures HeightsExact(d, chain) ==> HeightsExact(d', chain + [b])
  {
    hide ChainOk, StoreOk, HeightsAt, UndosRight, CanExtend, Acceptable, Tagged, ParentIn, Fold, UndosComplete;
    ExtensionFacts(rules, g, d, chain, b);
    ChainExtends(rules, g, chain, b);
    StoreGrows(d, g, b, d');
    HeightsGrow(rules, d, g, chain, b, d');
    UndosGrow(rules, d, g, chain, b, d');
    TxIndexGrows(chain, b);
  }

  lemma SameRegions(d: Disk, d': Disk)
    requires d'.utxos == d.utxos && d'.addrs == d.addrs && d'.stakes == d.stakes && IndexesOk(d)
    ensures IndexesOk(d')
  {
  }

  lemma RestFields(d: Disk, d': Disk)
    requires d'.Rest() == d.Rest()
    ensures d'.blocks == d.blocks && d'.heights == d.heights && d'.undos == d.undos && d'.txs == d.txs
    ensures d'.tip == d.tip && d'.height == d.height && d'.supply == d.supply && d'.cumDiff == d.cumDiff && d'.checkpoint == d.checkpoint
  {
    var r, r' := d.Rest(), d'.Rest();
    assert r.blocks == r'.blocks && r.heights == r'.heights && r.undos == r'.undos && r.txs == r'.txs && r.tip == r'.tip
        && r.height == r'.height && r.supply == r'.supply && r.cumDiff == r'.cumDiff && r.checkpoint == r'.checkpoint;
  }

  /** Everything a chain needs on disk but the ledger survives changes to the other regions. */
  lemma {:induction false} RestCarries(rules: Rules, g: Block, d: Disk, d': Disk, chain: seq<Block>)
    requires d'.Rest() == d.Rest()
    ensures d'.blocks == d.blocks && d'.heights == d.heights && d'.undos == d.undos && d'.txs == d.txs
    ensures d'.tip == d.tip && d'.height == d.height && d'.supply == d.supply && d'.cumDiff == d.cumDiff && d'.checkpoint == d.checkpoint
    ensures StoreOk(d, g) ==> StoreOk(d', g)
    ensures HeightsAt(d, chain) ==> HeightsAt(d', chain)
    ensures UndosRight(d, chain) ==> UndosRight(d', chain)
    ensures |chain| > 0 && TipIs(d, chain) ==> TipIs(d', chain)
    ensures Recoverable(rules, g, d, chain) ==> Recoverable(rules, g, d', chain)
  {
    RestFields(d, d');
    SameTablesCarry(rules, g, d, d', chain);
  }

  lemma {:induction false} SameTablesCarry(rules: Rules, g: Block, d: Disk, d': Disk, chain: seq<Block>)
    requires d'.blocks == d.blocks && d'.heights == d.heights
    ensures StoreOk(d, g) ==> StoreOk(d', g)
    ensures HeightsAt(d, chain) ==> HeightsAt(d', chain)
    ensures UndosRight(d, chain) && d'.undos == d.undos ==> UndosRight(d', chain)
    ensures |chain| > 0 && TipIs(d, chain) && d'.tip == d.tip && d'.height == d.height ==> TipIs(d', chain)
    ensures Recoverable(rules, g, d, chain) && d'.tip == d.tip && d'.height == d.height && d'.checkpoint.Some? ==> Recoverable(rules, g, d', chain)
  {
    hide ChainOk;
    if StoreOk(d, g) {
      forall h | h in d'.blocks
        ensures StoredOk(d', g, h)
      {
        assert StoredOk(d, g, h);
      }
    }
    if HeightsAt(d, chain) {
      forall i | 0 <= i < |chain|
        ensures d'.BlockAt(i) == Some(chain[i])
      {
        assert d.BlockAt(i) == Some(chain[i]);
      }
    }
    if UndosRight(d, chain) && d'.undos == d.undos {
      forall i | 1 <= i < |chain|
        ensures UndoRight(d', chain, i)
      {
        assert UndoRight(d, chain, i);
      }
    }
  }

  /** Dropping the tip block's undo record leaves the records of the chain below. */
  lemma {:induction false} UndosShrink(rules: Rules, g: Block, d: Disk, chain: seq<Block>, d': Disk)
    requires StoreOk(d, g) && ChainOk(rules, g, chain) && HeightsAt(d, chain) && |chain| > 1 && UndosRight(d, chain)
    requires d'.undos == d.undos - {chain[|chain| - 1].Hash()}
    ensures UndosRight(d', chain[..|chain| - 1])
    ensures UndosComplete(d, chain) ==> UndosComplete(d', chain[..|chain| - 1])
  {
    hide ChainOk, StoreOk;
    var n := |chain| - 1;
    forall i | 1 <= i < n
      ensures UndoRight(d', chain[..n], i)
      ensures chain[i].Hash() in d.undos ==> chain[i].Hash() in d'.undos
    {
      assert UndoRight(d, chain, i);
      assert chain[..n][..i] == chain[..i];
      if chain[i].Hash() == chain[n].Hash() {
        ChainHashesDistinct(rules, d, g, chain, i, n);
      }
    }
  }

  lemma HeightsPrefix(d: Disk, chain: seq<Block>, n: nat)
    requires HeightsAt(d, chain) && n <= |chain|
    ensures HeightsAt(d, chain[..n])
  {
    forall i | 0 <= i < n
      ensures d.BlockAt(i) == Some(chain[..n][i])
    {
      assert d.BlockAt(i) == Some(chain[i]);
    }
  }
}
