/** The block store (internal/chain/store.go). Each method is a list of single-key writes, or
    the one batch of CommitBlock. */
module BlockStore {
  import opened Primitives
  import opened Types
  import opened Storage

  /** The transaction index entries of a block. */
  function TxEntries(b: Block): map<Hash, (nat, Hash)> {
    Entries(TxHashes(b.txs), (b.header.height, b.Hash()))
  }

  function Entries(hashes: seq<Hash>, location: (nat, Hash)): map<Hash, (nat, Hash)> {
    map h | h in hashes :: location
  }

  lemma EntriesStep(m: map<Hash, (nat, Hash)>, hashes: seq<Hash>, i: nat, location: (nat, Hash))
    requires i < |hashes|
    ensures (m + Entries(hashes[..i], location))[hashes[i] := location] == m + Entries(hashes[..i + 1], location)
  {
    assert hashes[..i + 1] == hashes[..i] + [hashes[i]];
  }

  function Committed(d: Disk, b: Block, undo: Undo, supply: nat, cumDiff: nat): Disk {
    var h := b.Hash();
    d.(blocks := d.blocks[h := b], heights := d.heights[b.header.height := h], txs := d.txs + TxEntries(b),
       undos := d.undos[h := undo], tip := Some(h), height := Some(b.header.height), supply := Some(supply), cumDiff := Some(cumDiff))
  }

  /** PutBlock's effect: the block and its indexes, but neither tip nor undo record. */
  function Indexed(d: Disk, b: Block): Disk {
    var h := b.Hash();
    d.(blocks := d.blocks[h := b], heights := d.heights[b.header.height := h], txs := d.txs + TxEntries(b))
  }

  function SupplyOf(d: Disk): nat {
    if d.supply.Some? then d.supply.value else 0
  }

  function CumDiffOf(d: Disk): nat {
    if d.cumDiff.Some? then d.cumDiff.value else 0
  }

  /** The transaction index of a chain: every transaction at its block. */
  function TxIndex(chain: seq<Block>): map<Hash, (nat, Hash)> {
    if |chain| == 0 then map[] else TxIndex(chain[..|chain| - 1]) + TxEntries(chain[|chain| - 1])
  }

  function HeightIndex(chain: seq<Block>): map<nat, Hash> {
    map i: nat | i < |chain| :: chain[i].Hash()
  }

  /** The blocks of heights 0 to `h` that the PrevHash links lead to from `hash`; none when one is
      missing or not at its height. */
  function Ancestors(d: Disk, hash: Hash, h: nat): (r: Option<seq<Block>>)
    ensures r.Some? ==> |r.value| == h + 1 && forall i :: 0 <= i <= h ==> r.value[i].header.height == i
    decreases h
  {
    if hash !in d.blocks || d.blocks[hash].header.height != h then None
    else if h == 0 then Some([d.blocks[hash]])
    else
      var below := Ancestors(d, d.blocks[hash].header.prevHash, h - 1);
      if below.None? then None else Some(below.value + [d.blocks[hash]])
  }

  lemma IndexesStep(heights: map<nat, Hash>, txs: map<Hash, (nat, Hash)>, chain: seq<Block>, i: nat)
    requires i < |chain|
    ensures (heights + HeightIndex(chain[..i]))[i := chain[i].Hash()] == heights + HeightIndex(chain[..i + 1])
    ensures (txs + TxIndex(chain[..i])) + TxEntries(chain[i]) == txs + TxIndex(chain[..i + 1])
  {
    hide TxEntries, HeightIndex;
    var more, less := chain[..i + 1], chain[..i];
    assert more[..i] == less && more[i] == chain[i];
    MapsConcat(txs, TxIndex(less), TxEntries(chain[i]));
    HeightIndexStep(chain, i);
    MapUpdated(heights, HeightIndex(less), i, chain[i].Hash());
  }

  lemma HeightIndexStep(chain: seq<Block>, i: nat)
    requires i < |chain|
    ensures HeightIndex(chain[..i + 1]) == HeightIndex(chain[..i])[i := chain[i].Hash()]
  {
  }

  lemma MapsConcat<K, V>(a: map<K, V>, b: map<K, V>, c: map<K, V>)
    ensures (a + b) + c == a + (b + c)
  {
  }

  lemma NothingIndexed(heights: map<nat, Hash>, txs: map<Hash, (nat, Hash)>)
    ensures heights + HeightIndex([]) == heights && txs + TxIndex([]) == txs
  {
  }

  class Blocks {
    const db: Database

    constructor (db: Database)
      ensures this.db == db
    {
      this.db := db;
    }

    /** StoreBlock: by hash only, for blocks off the active chain. */
    method StoreBlock(b: Block) returns (ok: bool)
      modifies db
      ensures ok ==> db.disk == old(db.disk).(blocks := old(db.disk.blocks)[b.Hash() := b])
      ensures !ok ==> db.disk == old(db.disk) && db.writesLeft == 0
      ensures ok <==> old(db.writesLeft) > 0
      ensures ok ==> db.writesLeft == old(db.writesLeft) - 1
    {
      ok := db.Write(db.disk.(blocks := db.disk.blocks[b.Hash() := b]));
    }

    method PutTxEntries(b: Block) returns (ok: bool)
      modifies db
      ensures ok ==> db.disk == old(db.disk).(txs := old(db.disk.txs) + TxEntries(b))
      ensures ok <==> old(db.writesLeft) >= |b.txs|
      ensures db.writesLeft == if ok then old(db.writesLeft) - |b.txs| else 0
      ensures old(db.writesLeft) == 0 ==> db.disk == old(db.disk)
      ensures db.disk == old(db.disk).(txs := db.disk.txs)
    {
      var hashes := TxHashes(b.txs);
      var location: (nat, Hash) := (b.header.height, b.Hash());
      ok := true;
      for i := 0 to |hashes|
        invariant db.disk == old(db.disk).(txs := old(db.disk.txs) + Entries(hashes[..i], location))
        invariant db.writesLeft == old(db.writesLeft) - i
      {
        EntriesStep(old(db.disk.txs), hashes, i, location);
        ok := db.Write(db.disk.(txs := db.disk.txs[hashes[i] := location]));
        if !ok {
          return;
        }
      }
      assert hashes[..|hashes|] == hashes;
      ok := true;
    }

    /** PutBlock. */
    method PutBlock(b: Block) returns (ok: bool)
      modifies db
      ensures ok ==> db.disk == Indexed(old(db.disk), b)
      ensures db.disk == old(db.disk).(blocks := db.disk.blocks, heights := db.disk.heights, txs := db.disk.txs)
      ensures db.disk.blocks == if old(db.writesLeft) >= 1 then old(db.disk.blocks)[b.Hash() := b] else old(db.disk.blocks)
      ensures db.disk.heights == if old(db.writesLeft) >= 2 then old(db.disk.heights)[b.header.height := b.Hash()] else old(db.disk.heights)
      ensures old(db.writesLeft) <= 2 ==> db.disk.txs == old(db.disk.txs)
      ensures ok <==> old(db.writesLeft) >= 2 + |b.txs|
      ensures db.writesLeft == if ok then old(db.writesLeft) - 2 - |b.txs| else 0
    {
      ok := db.Write(db.disk.(blocks := db.disk.blocks[b.Hash() := b]));
      if !ok {
        return;
      }
      ok := db.Write(db.disk.(heights := db.disk.heights[b.header.height := b.Hash()]));
      if !ok {
        return;
      }
      ok := PutTxEntries(b);
    }

    /** SetTip: three puts, so a crash can fall between them. */
    method SetTip(hash: Hash, height: nat, supply: nat) returns (ok: bool)
      modifies db
      ensures ok ==> db.disk == old(db.disk).(tip := Some(hash), height := Some(height), supply := Some(supply))
      ensures ok <==> old(db.writesLeft) >= 3
      ensures db.writesLeft == if ok then old(db.writesLeft) - 3 else 0
      ensures db.disk == old(db.disk).(tip := db.disk.tip, height := db.disk.height, supply := db.disk.supply)
      ensures db.disk.tip == if old(db.writesLeft) >= 1 then Some(hash) else old(db.disk.tip)
      ensures db.disk.height == if old(db.writesLeft) >= 2 then Some(height) else old(db.disk.height)
      ensures db.disk.supply == if old(db.writesLeft) >= 3 then Some(supply) else old(db.disk.supply)
    {
      ok := db.Write(db.disk.(tip := Some(hash)));
      if !ok {
        return;
      }
      ok := db.Write(db.disk.(height := Some(height)));
      if !ok {
        return;
      }
      ok := db.Write(db.disk.(supply := Some(supply)));
    }

    method SetCumulativeDifficulty(cumDiff: nat) returns (ok: bool)
      modifies db
      ensures ok ==> db.disk == old(db.disk).(cumDiff := Some(cumDiff))
      ensures !ok ==> db.disk == old(db.disk) && db.writesLeft == 0
      ensures ok <==> old(db.writesLeft) > 0
      ensures ok ==> db.writesLeft == old(db.writesLeft) - 1
    {
      ok := db.Write(db.disk.(cumDiff := Some(cumDiff)));
    }

    method PutReorgCheckpoint(forkHeight: nat) returns (ok: bool)
      modifies db
      ensures ok ==> db.disk == old(db.disk).(checkpoint := Some(forkHeight))
      ensures !ok ==> db.disk == old(db.disk) && db.writesLeft == 0
      ensures ok <==> old(db.writesLeft) > 0
      ensures ok ==> db.writesLeft == old(db.writesLeft) - 1
    {
      ok := db.Write(db.disk.(checkpoint := Some(forkHeight)));
    }

    method DeleteReorgCheckpoint() returns (ok: bool)
      modifies db
      ensures ok ==> db.disk == old(db.disk).(checkpoint := None)
      ensures !ok ==> db.disk == old(db.disk) && db.writesLeft == 0
      ensures ok <==> old(db.writesLeft) > 0
      ensures ok ==> db.writesLeft == old(db.writesLeft) - 1
    {
      ok := db.Write(db.disk.(checkpoint := None));
    }

    method PutUndo(hash: Hash, undo: Undo) returns (ok: bool)
      modifies db
      ensures ok ==> db.disk == old(db.disk).(undos := old(db.disk.undos)[hash := undo])
      ensures !ok ==> db.disk == old(db.disk) && db.writesLeft == 0
      ensures ok <==> old(db.writesLeft) > 0
      ensures ok ==> db.writesLeft == old(db.writesLeft) - 1
    {
      ok := db.Write(db.disk.(undos := db.disk.undos[hash := undo]));
    }

    method DeleteUndo(hash: Hash) returns (ok: bool)
      modifies db
      ensures ok ==> db.disk == old(db.disk).(undos := old(db.disk.undos) - {hash})
      ensures !ok ==> db.disk == old(db.disk) && db.writesLeft == 0
      ensures ok <==> old(db.writesLeft) > 0
      ensures ok ==> db.writesLeft == old(db.writesLeft) - 1
    {
      ok := db.Write(db.disk.(undos := db.disk.undos - {hash}));
    }

    /** The loop of revertBlock over the transaction index. */
    method DeleteTxIndexes(hashes: seq<Hash>) returns (ok: bool)
      modifies db
      ensures ok ==> db.disk == old(db.disk).(txs := old(db.disk.txs) - Elements(hashes))
      ensures !ok ==> db.writesLeft == 0
      ensures db.disk == old(db.disk).(txs := db.disk.txs)
    {
      ok := true;
      for i := 0 to |hashes|
        invariant db.disk == old(db.disk).(txs := old(db.disk.txs) - Elements(hashes[..i]))
      {
        assert hashes[..i + 1] == hashes[..i] + [hashes[i]];
        ok := db.Write(db.disk.(txs := db.disk.txs - {hashes[i]}));
        if !ok {
          return;
        }
      }
      assert hashes[..|hashes|] == hashes;
      ok := true;
    }

    /** CommitBlock: block, indexes, undo record, tip, supply and difficulty in one batch. */
    method CommitBlock(b: Block, undo: Undo, supply: nat, cumDiff: nat) returns (ok: bool)
      modifies db
      ensures ok ==> db.disk == Committed(old(db.disk), b, undo, supply, cumDiff)
      ensures !ok ==> db.disk == old(db.disk) && db.writesLeft == 0
      ensures ok <==> old(db.writesLeft) > 0
      ensures ok ==> db.writesLeft == old(db.writesLeft) - 1
    {
      ok := db.Write(Committed(db.disk, b, undo, supply, cumDiff));
    }

    /** CommitBlock's fallback for a database without batches: the same writes, one by one. Where it
        stops is decided by the writes left: with just enough for the tip but not its height, the two
        contradict each other. */
    method CommitUnbatched(b: Block, undo: Undo, supply: nat, cumDiff: nat) returns (ok: bool)
      modifies db
      ensures ok ==> db.disk == Committed(old(db.disk), b, undo, supply, cumDiff)
      ensures ok <==> old(db.writesLeft) >= |b.txs| + 7
      ensures db.writesLeft == if ok then old(db.writesLeft) - |b.txs| - 7 else 0
      ensures db.disk == old(db.disk).(blocks := db.disk.blocks, heights := db.disk.heights, txs := db.disk.txs, undos := db.disk.undos,
                                       tip := db.disk.tip, height := db.disk.height, supply := db.disk.supply, cumDiff := db.disk.cumDiff)
      ensures db.disk.blocks == if old(db.writesLeft) >= 1 then old(db.disk.blocks)[b.Hash() := b] else old(db.disk.blocks)
      ensures db.disk.heights == if old(db.writesLeft) >= 2 then old(db.disk.heights)[b.header.height := b.Hash()] else old(db.disk.heights)
      ensures old(db.writesLeft) <= 2 ==> db.disk.txs == old(db.disk.txs)
      ensures old(db.writesLeft) >= |b.txs| + 2 ==> db.disk.txs == old(db.disk.txs) + TxEntries(b)
      ensures db.disk.undos == if old(db.writesLeft) >= |b.txs| + 3 then old(db.disk.undos)[b.Hash() := undo] else old(db.disk.undos)
      ensures db.disk.tip == if old(db.writesLeft) >= |b.txs| + 4 then Some(b.Hash()) else old(db.disk.tip)
      ensures db.disk.height == if old(db.writesLeft) >= |b.txs| + 5 then Some(b.header.height) else old(db.disk.height)
      ensures db.disk.supply == if old(db.writesLeft) >= |b.txs| + 6 then Some(supply) else old(db.disk.supply)
      ensures db.disk.cumDiff == if ok then Some(cumDiff) else old(db.disk.cumDiff)
    {
      ok := PutBlock(b);
      if !ok {
        return;
      }
      ok := PutUndo(b.Hash(), undo);
      if !ok {
        return;
      }
      ok := SetTip(b.Hash(), b.header.height, supply);
      if !ok {
        return;
      }
      ok := SetCumulativeDifficulty(cumDiff);
    }

    /** RebuildIndexes' walk back from the tip. */
    method CollectAncestors(tip: Hash, height: nat) returns (r: Option<map<nat, Block>>)
      ensures r.Some? <==> Ancestors(db.disk, tip, height).Some?
      ensures r.Some? ==> forall i :: 0 <= i <= height ==> i in r.value && r.value[i] == Ancestors(db.disk, tip, height).value[i]
    {
      var collected: map<nat, Block> := map[];
      var hash, n := tip, height + 1;
      ghost var above: seq<Block> := [];
      while n > 0
        invariant 0 <= n <= height + 1 && n + |above| == height + 1
        invariant n > 0 ==> (Ancestors(db.disk, tip, height).Some? <==> Ancestors(db.disk, hash, n - 1).Some?)
        invariant n > 0 && Ancestors(db.disk, hash, n - 1).Some? ==> Ancestors(db.disk, tip, height).value == Ancestors(db.disk, hash, n - 1).value + above
        invariant n == 0 ==> Ancestors(db.disk, tip, height) == Some(above)
        invariant forall i :: n <= i <= height ==> i in collected && collected[i] == above[i - n]
      {
        if hash !in db.disk.blocks || db.disk.blocks[hash].header.height != n - 1 {
          return None;
        }
        var b := db.disk.blocks[hash];
        collected := collected[n - 1 := b];
        above := [b] + above;
        hash, n := b.header.prevHash, n - 1;
      }
      return Some(collected);
    }

    /** RebuildIndexes: the height and transaction entries of every block below the tip. */
    method RebuildIndexes() returns (r: Option<nat>)
      modifies db
      ensures db.disk == old(db.disk).(heights := db.disk.heights, txs := db.disk.txs)
      ensures old(db.disk.tip) == None || old(db.disk.tip == Some(ZERO_HASH) && db.disk.height.Some?) ==> r == Some(0) && db.disk == old(db.disk)
      ensures old(db.disk.tip.Some? && db.disk.height.None?) ==> r.None? && db.disk == old(db.disk)
      ensures old(db.disk.tip.Some? && db.disk.tip != Some(ZERO_HASH) && db.disk.height.Some?) ==>
                var p := Ancestors(old(db.disk), old(db.disk.tip.value), old(db.disk.height.value));
                if p.None? then r.None? && db.disk == old(db.disk)
                else
                  && (r.None? ==> db.writesLeft == 0)
                  && (r.Some? ==> r.value == |p.value| && db.disk.heights == old(db.disk.heights) + HeightIndex(p.value)
                                  && db.disk.txs == old(db.disk.txs) + TxIndex(p.value))
    {
      hide Ancestors, TxIndex, HeightIndex, TxEntries;
      if db.disk.tip.None? {
        return Some(0);
      }
      if db.disk.height.None? {
        return None;
      }
      var tip, height := db.disk.tip.value, db.disk.height.value;
      if tip == ZERO_HASH {
        return Some(0);
      }
      var collected := CollectAncestors(tip, height);
      if collected.None? {
        return None;
      }
      ghost var p := Ancestors(db.disk, tip, height).value;
      NothingIndexed(db.disk.heights, db.disk.txs);
      assert p[..0] == [];
      for h := 0 to height + 1
        invariant db.disk == old(db.disk).(heights := db.disk.heights, txs := db.disk.txs)
        invariant db.disk.heights == old(db.disk.heights) + HeightIndex(p[..h])
        invariant db.disk.txs == old(db.disk.txs) + TxIndex(p[..h])
      {
        var b := collected.value[h];
        IndexesStep(old(db.disk.heights), old(db.disk.txs), p, h);
        var ok := db.Write(db.disk.(heights := db.disk.heights[h := b.Hash()]));
        if !ok {
          return None;
        }
        ok := PutTxEntries(b);
        if !ok {
          return None;
        }
      }
      assert p[..|p|] == p;
      return Some(height + 1);
    }
  }
}
