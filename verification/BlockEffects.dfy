/** Applying and reverting a block on the database (applyBlockWithUndo and revertBlock of
    internal/chain/reorg.go): loops of single-key writes, proved to have the effect of the
    functions of Ledger. */
module BlockEffects {
  import opened Primitives
  import opened Types
  import opened Ledger
  import opened Weights
  import opened Storage
  import opened UtxoStore
  import opened BlockStore
  import opened ChainSpec

  /** Does the transaction spend a stake output? */
  method DetectStake(store: Store, t: Tx) returns (r: bool)
    ensures r <==> SpendsStake(store.db.disk.utxos, t)
  {
    for i := 0 to |t.inputs|
      invariant forall j :: 0 <= j < i ==> !IsStakeSpend(store.db.disk.utxos, t.inputs[j].prevOut)
    {
      var op := t.inputs[i].prevOut;
      if !op.IsZero() && op in store.db.disk.utxos && store.db.disk.utxos[op].script.kind == Stake {
        assert IsStakeSpend(store.db.disk.utxos, op);
        return true;
      }
    }
    return false;
  }

  lemma SpentByPrefix(m: UtxoMap, ins: seq<Input>, i: nat)
    requires i < |ins|
    ensures SpentBy(m, ins[..i + 1]) == SpentBy(m, ins[..i]) + (if ins[i].prevOut.IsZero() || ins[i].prevOut !in m then [] else [m[ins[i].prevOut]])
  {
    assert ins[..i + 1][..i] == ins[..i];
  }

  lemma DistinctLeft(m: UtxoMap, ins: seq<Input>, i: nat)
    requires i < |ins| && DistinctSpends(ins) && SpendsOf(ins) <= m.Keys && !ins[i].prevOut.IsZero()
    ensures ins[i].prevOut in m - SpendsOf(ins[..i])
  {
    assert ins[i].prevOut in SpendsOf(ins);
  }

  // ---------------------------------------------------------------- how many writes it takes

  /** The writes of the spending loop. */
  ghost function SpendWrites(m: UtxoMap, ins: seq<Input>): nat {
    if |ins| == 0 then 0 else
      var n := |ins| - 1;
      SpendWrites(m, ins[..n]) + (if ins[n].prevOut.IsZero() then 0 else DeleteWrites(m - SpendsOf(ins[..n]), ins[n].prevOut))
  }

  /** The writes for the first k outputs of a transaction. */
  ghost function CreateWrites(t: Tx, k: nat, height: nat, coinbase: bool, lock: nat): nat
    requires k <= |t.outputs|
  {
    if k == 0 then 0 else CreateWrites(t, k - 1, height, coinbase, lock) + PutWrites(NewUtxo(t, k - 1, height, coinbase, lock))
  }

  ghost function TxWrites(m: UtxoMap, t: Tx, height: nat, coinbase: bool): nat {
    SpendWrites(m, t.inputs) + CreateWrites(t, |t.outputs|, height, coinbase, LockFor(m, t, height))
  }

  /** The writes with which a block reaches the three output regions. */
  ghost function BlockWrites(m: UtxoMap, txs: seq<Tx>, height: nat): nat {
    if |txs| == 0 then 0 else
      var n := |txs| - 1;
      BlockWrites(m, txs[..n], height) + TxWrites(ApplyTxs(m, txs[..n], height), txs[n], height, n == 0 && height > 0)
  }

  lemma SpendWritesStep(m: UtxoMap, ins: seq<Input>, i: nat)
    requires i < |ins|
    ensures SpendWrites(m, ins[..i + 1]) ==
            SpendWrites(m, ins[..i]) + (if ins[i].prevOut.IsZero() then 0 else DeleteWrites(m - SpendsOf(ins[..i]), ins[i].prevOut))
  {
    assert ins[..i + 1][..i] == ins[..i];
  }

  lemma {:induction false} SpendWritesGrow(m: UtxoMap, ins: seq<Input>, i: nat)
    requires i <= |ins|
    ensures SpendWrites(m, ins[..i]) <= SpendWrites(m, ins)
    decreases |ins| - i
  {
    if i < |ins| {
      SpendWritesStep(m, ins, i);
      SpendWritesGrow(m, ins, i + 1);
    } else {
      assert ins[..i] == ins;
    }
  }

  lemma {:induction false} CreateWritesGrow(t: Tx, i: nat, height: nat, coinbase: bool, lock: nat)
    requires i <= |t.outputs|
    ensures CreateWrites(t, i, height, coinbase, lock) <= CreateWrites(t, |t.outputs|, height, coinbase, lock)
    decreases |t.outputs| - i
  {
    if i < |t.outputs| {
      CreateWritesGrow(t, i + 1, height, coinbase, lock);
    }
  }

  lemma BlockWritesStep(m: UtxoMap, txs: seq<Tx>, height: nat, i: nat)
    requires i < |txs|
    ensures BlockWrites(m, txs[..i + 1], height) == BlockWrites(m, txs[..i], height) + TxWrites(ApplyTxs(m, txs[..i], height), txs[i], height, i == 0 && height > 0)
  {
    assert txs[..i + 1][..i] == txs[..i];
  }

  lemma {:induction false} BlockWritesGrow(m: UtxoMap, txs: seq<Tx>, height: nat, i: nat)
    requires i <= |txs|
    ensures BlockWrites(m, txs[..i], height) <= BlockWrites(m, txs, height)
    decreases |txs| - i
  {
    hide TxWrites;
    if i < |txs| {
      BlockWritesStep(m, txs, height, i);
      BlockWritesGrow(m, txs, height, i + 1);
    } else {
      assert txs[..i] == txs;
    }
  }

  /** The spending loop: each spent output is recorded, then deleted. */
  method SpendInputs(store: Store, ins: seq<Input>) returns (r: Option<seq<Utxo>>)
    modifies store.db
    ensures store.db.disk.Rest() == old(store.db.disk.Rest())
    ensures r.Some? ==> store.db.disk.utxos == old(store.db.disk.utxos) - SpendsOf(ins)
    ensures r.Some? ==> r.value == SpentBy(old(store.db.disk.utxos), ins)
    ensures r.Some? && IndexesOk(old(store.db.disk)) ==> IndexesOk(store.db.disk)
    ensures r.Some? ==> store.db.writesLeft == old(store.db.writesLeft) - SpendWrites(old(store.db.disk.utxos), ins)
    ensures r.None? && DistinctSpends(ins) && SpendsOf(ins) <= old(store.db.disk.utxos.Keys) ==>
              store.db.writesLeft == 0 && old(store.db.writesLeft) < SpendWrites(old(store.db.disk.utxos), ins)
    ensures old(store.db.writesLeft) == 0 ==> store.db.disk == old(store.db.disk) && store.db.writesLeft == 0
    ensures SpendsOf(ins) == {} ==> r.Some?
    ensures old(store.db.disk.utxos.Keys) - SpendsOf(ins) <= store.db.disk.utxos.Keys
    ensures OutputKeys(store.db.disk) + store.db.writesLeft <= old(OutputKeys(store.db.disk) + store.db.writesLeft)
  {
    hide *;
    ghost var m := store.db.disk.utxos;
    var spent: seq<Utxo> := [];
    NothingSpent(m, ins);
    for i := 0 to |ins|
      invariant store.db.disk.Rest() == old(store.db.disk.Rest())
      invariant store.db.disk.utxos == m - SpendsOf(ins[..i])
      invariant spent == SpentBy(m, ins[..i])
      invariant IndexesOk(old(store.db.disk)) ==> IndexesOk(store.db.disk)
      invariant store.db.writesLeft == old(store.db.writesLeft) - SpendWrites(m, ins[..i])
      invariant old(store.db.writesLeft) == 0 ==> store.db.disk == old(store.db.disk)
      invariant OutputKeys(store.db.disk) + store.db.writesLeft <= old(OutputKeys(store.db.disk) + store.db.writesLeft)
    {
      var op := ins[i].prevOut;
      SpendsOfGrows(ins, i);
      SpendWritesStep(m, ins, i);
      SpendWritesGrow(m, ins, i + 1);
      SpendsOfAll(ins, i);
      SpentByPrefix(m, ins, i);
      if op.IsZero() {
        continue;
      }
      WithoutUtxoIs(store.db.disk, op);
      if op !in store.db.disk.utxos {
        if DistinctSpends(ins) && SpendsOf(ins) <= m.Keys {
          DistinctLeft(m, ins, i);
        }
        return None;
      }
      spent := spent + [store.db.disk.utxos[op]];
      if IndexesOk(store.db.disk) {
        DeleteKeepsIndexes(store.db.disk, op);
      }
      var ok := store.Delete(op);
      if !ok {
        return None;
      }
    }
    assert ins[..|ins|] == ins;
    return Some(spent);
  }

  lemma NothingSpent(m: UtxoMap, ins: seq<Input>)
    ensures m - SpendsOf(ins[..0]) == m && SpentBy(m, ins[..0]) == [] && SpendWrites(m, ins[..0]) == 0 && SpendsOf(ins[..0]) == {}
  {
    assert SpendsOf(ins[..0]) == {};
  }

  lemma WithoutUtxoIs(d: Disk, op: Outpoint)
    ensures WithoutUtxo(d, op).utxos == d.utxos - {op}
  {
  }

  lemma WithUtxoIs(d: Disk, u: Utxo)
    ensures WithUtxo(d, u).utxos == d.utxos[u.outpoint := u]
  {
  }

  lemma NothingCreated(m: UtxoMap, t: Tx, height: nat, coinbase: bool, lock: nat)
    ensures WithOutputs(m, t, 0, height, coinbase, lock) == m && CreatedSeq(t)[..0] == [] && |CreatedSeq(t)| == |t.outputs|
    ensures CreateWrites(t, 0, height, coinbase, lock) == 0
    ensures CreatedSeq(t)[..|t.outputs|] == CreatedSeq(t)
  {
  }

  lemma NewUtxoIs(m: UtxoMap, t: Tx, i: nat, height: nat, coinbase: bool, lock: nat)
    requires i < |t.outputs|
    ensures NewUtxo(t, i, height, coinbase, lock).outpoint == Outpoint(TxHash(t), i)
    ensures CreateWrites(t, i + 1, height, coinbase, lock) == CreateWrites(t, i, height, coinbase, lock) + PutWrites(NewUtxo(t, i, height, coinbase, lock))
    ensures var u := NewUtxo(t, i, height, coinbase, lock); WithOutputs(m, t, i + 1, height, coinbase, lock) == WithOutputs(m, t, i, height, coinbase, lock)[u.outpoint := u]
  {
  }

  lemma SpendsOfAll(ins: seq<Input>, i: nat)
    requires i < |ins|
    ensures SpendsOf(ins[..i]) <= SpendsOf(ins)
    ensures !ins[i].prevOut.IsZero() ==> ins[i].prevOut in SpendsOf(ins)
  {
    assert forall k :: 0 <= k < i ==> ins[..i][k] == ins[k];
  }

  lemma CreatedSeqPrefix(t: Tx, i: nat)
    requires i < |t.outputs|
    ensures CreatedSeq(t)[..i + 1] == CreatedSeq(t)[..i] + [Outpoint(TxHash(t), i)]
  {
  }

  /** The first n outputs of a transaction are on the disk. */
  ghost predicate HasOutputs(d: Disk, t: Tx, n: nat, height: nat, coinbase: bool, lock: nat)
    requires n <= |t.outputs|
  {
    forall i :: 0 <= i < n ==> Has(d, NewUtxo(t, i, height, coinbase, lock))
  }

  lemma NoneOnDisk(d: Disk, t: Tx, height: nat, coinbase: bool, lock: nat)
    ensures HasOutputs(d, t, 0, height, coinbase, lock)
  {
  }

  lemma OutputAt(d: Disk, t: Tx, i: nat, height: nat, coinbase: bool, lock: nat)
    requires i < |t.outputs| && HasOutputs(d, t, |t.outputs|, height, coinbase, lock)
    ensures Has(d, NewUtxo(t, i, height, coinbase, lock))
  {
  }

  lemma OneMoreOnDisk(d: Disk, t: Tx, i: nat, height: nat, coinbase: bool, lock: nat)
    requires i < |t.outputs|
    ensures HasOutputs(d, t, i, height, coinbase, lock) ==> HasOutputs(WithUtxo(d, NewUtxo(t, i, height, coinbase, lock)), t, i + 1, height, coinbase, lock)
  {
    hide AddrKeys, StakeKeys;
  }

  /** A disk that holds all outputs of one transaction and nothing else has the regions of every such disk. */
  lemma {:induction false} FilledUp(d: Disk, full: Disk, t: Tx, height: nat, coinbase: bool, lock: nat)
    requires Within(d, full) && HasOutputs(d, t, |t.outputs|, height, coinbase, lock) && IndexesOk(full)
    requires forall op :: op in full.utxos ==> op in Creates(t) && full.utxos[op] == NewUtxo(t, op.index, height, coinbase, lock)
    ensures d.utxos == full.utxos && d.addrs == full.addrs && d.stakes == full.stakes
  {
    forall op | op in full.utxos
      ensures Has(d, full.utxos[op])
    {
      assert Has(d, NewUtxo(t, op.index, height, coinbase, lock));
    }
    assert forall key :: key in full.addrs ==> key in AddrKeys(full.utxos[key.1]) by {
      forall key | key in full.addrs
        ensures key in AddrKeys(full.utxos[key.1])
      {
        assert (key.0, key.1) in full.addrs;
      }
    }
    assert forall key :: key in full.stakes ==> key in StakeKeys(full.utxos[key.1]) by {
      forall key | key in full.stakes
        ensures key in StakeKeys(full.utxos[key.1])
      {
        assert (key.0, key.1) in full.stakes;
      }
    }
  }

  /** The creating loop. */
  method CreateOutputs(store: Store, t: Tx, height: nat, coinbase: bool, lock: nat, ghost full: Disk) returns (r: Option<seq<Outpoint>>)
    modifies store.db
    ensures Within(old(store.db.disk), full) && HasOutputs(full, t, |t.outputs|, height, coinbase, lock) ==>
              Within(store.db.disk, full) && (r.Some? ==> HasOutputs(store.db.disk, t, |t.outputs|, height, coinbase, lock))
    ensures store.db.disk.Rest() == old(store.db.disk.Rest())
    ensures r.Some? ==> store.db.disk.utxos == WithOutputs(old(store.db.disk.utxos), t, |t.outputs|, height, coinbase, lock)
    ensures r.Some? ==> r.value == CreatedSeq(t)
    ensures r.Some? && IndexesOk(old(store.db.disk)) && Creates(t) !! old(store.db.disk.utxos.Keys) ==> IndexesOk(store.db.disk)
    ensures r.Some? <==> old(store.db.writesLeft) >= CreateWrites(t, |t.outputs|, height, coinbase, lock)
    ensures store.db.writesLeft == if r.Some? then old(store.db.writesLeft) - CreateWrites(t, |t.outputs|, height, coinbase, lock) else 0
    ensures old(store.db.writesLeft) == 0 ==> store.db.disk == old(store.db.disk)
    ensures old(store.db.disk.utxos.Keys) <= store.db.disk.utxos.Keys
    ensures old(store.db.writesLeft) > 0 && |t.outputs| > 0 ==> Outpoint(TxHash(t), 0) in store.db.disk.utxos
    ensures OutputKeys(store.db.disk) + store.db.writesLeft <= old(OutputKeys(store.db.disk) + store.db.writesLeft)
  {
    hide *;
    ghost var m := store.db.disk.utxos;
    var created: seq<Outpoint> := [];
    NothingCreated(m, t, height, coinbase, lock);
    NoneOnDisk(store.db.disk, t, height, coinbase, lock);
    ghost var among := Within(store.db.disk, full) && HasOutputs(full, t, |t.outputs|, height, coinbase, lock);
    for i := 0 to |t.outputs|
      invariant among ==> Within(store.db.disk, full) && HasOutputs(store.db.disk, t, i, height, coinbase, lock)
      invariant store.db.disk.Rest() == old(store.db.disk.Rest())
      invariant store.db.disk.utxos == WithOutputs(m, t, i, height, coinbase, lock)
      invariant created == CreatedSeq(t)[..i]
      invariant IndexesOk(old(store.db.disk)) && Creates(t) !! m.Keys ==> IndexesOk(store.db.disk)
      invariant store.db.writesLeft == old(store.db.writesLeft) - CreateWrites(t, i, height, coinbase, lock)
      invariant old(store.db.writesLeft) == 0 ==> store.db.disk == old(store.db.disk)
      invariant m.Keys <= store.db.disk.utxos.Keys && (i > 0 ==> Outpoint(TxHash(t), 0) in store.db.disk.utxos)
      invariant OutputKeys(store.db.disk) + store.db.writesLeft <= old(OutputKeys(store.db.disk) + store.db.writesLeft)
    {
      var u := NewUtxo(t, i, height, coinbase, lock);
      NewUtxoIs(m, t, i, height, coinbase, lock);
      CreateWritesGrow(t, i + 1, height, coinbase, lock);
      WithUtxoIs(store.db.disk, u);
      CreatedSeqPrefix(t, i);
      created := created + [u.outpoint];
      if IndexesOk(store.db.disk) && Creates(t) !! m.Keys {
        NextIsNew(m, t, i, height, coinbase, lock);
        PutKeepsIndexes(store.db.disk, u);
      }
      ghost var before := store.db.disk;
      var ok := store.Put(u);
      if among {
        OutputAt(full, t, i, height, coinbase, lock);
        PutStaysWithin(before, u, store.db.disk, full);
      }
      if !ok {
        return None;
      }
      OneMoreOnDisk(before, t, i, height, coinbase, lock);
    }
    return Some(created);
  }

  ghost predicate AllDistinctSpends(txs: seq<Tx>) {
    forall i :: 0 <= i < |txs| ==> DistinctSpends(txs[i].inputs)
  }

  lemma PrefixSteps(m: UtxoMap, txs: seq<Tx>, height: nat, i: nat)
    requires i < |txs|
    ensures ApplyTxs(m, txs[..i + 1], height) == ApplyTx(ApplyTxs(m, txs[..i], height), txs[i], height, i == 0 && height > 0)
    ensures SpentByTxs(m, txs[..i + 1], height) == SpentByTxs(m, txs[..i], height) + SpentBy(ApplyTxs(m, txs[..i], height), txs[i].inputs)
    ensures CreatedByTxs(txs[..i + 1]) == CreatedByTxs(txs[..i]) + CreatedSeq(txs[i])
  {
    hide ApplyTx, SpentBy, CreatedSeq;
    assert txs[..i + 1][..i] == txs[..i];
  }

  lemma TxParts(m: UtxoMap, t: Tx, height: nat, coinbase: bool)
    ensures Spends(t) == SpendsOf(t.inputs)
    ensures ApplyTx(m, t, height, coinbase) == WithOutputs(m - SpendsOf(t.inputs), t, |t.outputs|, height, coinbase, LockFor(m, t, height))
    ensures LockFor(m, t, height) == if SpendsStake(m, t) then height + UNSTAKE_COOLDOWN else 0
    ensures TxWrites(m, t, height, coinbase) == SpendWrites(m, t.inputs) + CreateWrites(t, |t.outputs|, height, coinbase, LockFor(m, t, height))
    ensures SpendsOf(t.inputs) == {} ==> SpendWrites(m, t.inputs) == 0
    ensures Creates(t) !! m.Keys ==> Creates(t) !! (m - SpendsOf(t.inputs)).Keys
  {
    ApplyTxCreates(m, t, height, coinbase);
    if SpendsOf(t.inputs) == {} {
      SpendsNoWrites(m, t.inputs);
    }
  }

  lemma {:induction false} SpendsNoWrites(m: UtxoMap, ins: seq<Input>)
    requires SpendsOf(ins) == {}
    ensures SpendWrites(m, ins) == 0
  {
    if |ins| > 0 {
      var n := |ins| - 1;
      SpendsOfGrows(ins, n);
      assert ins[..n + 1] == ins;
      SpendsNoWrites(m, ins[..n]);
    }
  }

  /** The body of applyBlockWithUndo for one transaction. */
  method ApplyTransaction(store: Store, t: Tx, height: nat, coinbase: bool) returns (r: Option<seq<Utxo>>)
    modifies store.db
    ensures store.db.disk.Rest() == old(store.db.disk.Rest())
    ensures r.Some? ==> store.db.disk.utxos == ApplyTx(old(store.db.disk.utxos), t, height, coinbase)
    ensures r.Some? ==> r.value == SpentBy(old(store.db.disk.utxos), t.inputs)
    ensures r.Some? && IndexesOk(old(store.db.disk)) && Creates(t) !! old(store.db.disk.utxos.Keys) ==> IndexesOk(store.db.disk)
    ensures r.Some? ==> store.db.writesLeft == old(store.db.writesLeft) - TxWrites(old(store.db.disk.utxos), t, height, coinbase)
    ensures r.None? && DistinctSpends(t.inputs) && Spends(t) <= old(store.db.disk.utxos.Keys) ==>
              store.db.writesLeft == 0 && old(store.db.writesLeft) < TxWrites(old(store.db.disk.utxos), t, height, coinbase)
    ensures old(store.db.writesLeft) == 0 ==> store.db.disk == old(store.db.disk) && store.db.writesLeft == 0
    ensures old(store.db.disk.utxos.Keys) - Spends(t) <= store.db.disk.utxos.Keys
    ensures Spends(t) == {} && old(store.db.writesLeft) > 0 && |t.outputs| > 0 ==> Outpoint(TxHash(t), 0) in store.db.disk.utxos
    ensures OutputKeys(store.db.disk) + store.db.writesLeft <= old(OutputKeys(store.db.disk) + store.db.writesLeft)
  {
    hide *;
    TxParts(store.db.disk.utxos, t, height, coinbase);
    var stake := DetectStake(store, t);
    r := SpendInputs(store, t.inputs);
    if r.None? {
      return;
    }
    var created := CreateOutputs(store, t, height, coinbase, if stake then height + UNSTAKE_COOLDOWN else 0, store.db.disk);
    if created.None? {
      return None;
    }
  }

  /** The record of the first i transactions. */
  ghost function UndoPrefix(m: UtxoMap, txs: seq<Tx>, height: nat, i: nat): Undo
    requires i <= |txs|
  {
    Undo(SpentByTxs(m, txs[..i], height), CreatedByTxs(txs[..i]), TxHashes(txs[..i]), 0)
  }

  lemma UndoPrefixGrows(m: UtxoMap, txs: seq<Tx>, height: nat, i: nat)
    requires i < |txs|
    ensures var u := UndoPrefix(m, txs, height, i);
            UndoPrefix(m, txs, height, i + 1) ==
            Undo(u.spent + SpentBy(ApplyTxs(m, txs[..i], height), txs[i].inputs), u.created + CreatedSeq(txs[i]), u.txHashes + [TxHash(txs[i])], 0)
    ensures ApplyTxs(m, txs[..i + 1], height) == ApplyTx(ApplyTxs(m, txs[..i], height), txs[i], height, i == 0 && height > 0)
  {
    PrefixSteps(m, txs, height, i);
    assert TxHashes(txs[..i + 1]) == TxHashes(txs[..i]) + [TxHash(txs[i])];
  }

  lemma UndoPrefixEnds(m: UtxoMap, b: Block)
    ensures UndoPrefix(m, b.txs, b.header.height, 0) == Undo([], [], [], 0)
    ensures ApplyTxs(m, b.txs[..0], b.header.height) == m
    ensures UndoPrefix(m, b.txs, b.header.height, |b.txs|) == UndoFor(m, b, 0)
    ensures BlockWrites(m, b.txs[..0], b.header.height) == 0 && b.txs[..|b.txs|] == b.txs
    ensures StartsWithPayment(b.txs) ==> |b.txs| > 0
    ensures ApplyTxs(m, b.txs[..|b.txs|], b.header.height) == ApplyBlock(m, b)
  {
    assert b.txs[..|b.txs|] == b.txs;
  }

  lemma DistinctAt(txs: seq<Tx>, i: nat)
    requires AllDistinctSpends(txs) && i < |txs|
    ensures DistinctSpends(txs[i].inputs)
  {
  }

  /** The block opens with a transaction that spends nothing and pays something: a coinbase. */
  ghost predicate StartsWithPayment(txs: seq<Tx>) {
    |txs| > 0 && Spends(txs[0]) == {} && |txs[0].outputs| > 0
  }

  lemma FirstOutputStays(m: UtxoMap, txs: seq<Tx>, i: nat)
    requires i < |txs|
    ensures StartsWithPayment(txs) && i == 0 ==> Spends(txs[i]) == {} && |txs[i].outputs| > 0
    ensures StartsWithPayment(txs) && i > 0 && Snapshot(m, txs) ==> Outpoint(TxHash(txs[0]), 0) !in Spends(txs[i])
  {
    if StartsWithPayment(txs) && i > 0 && Snapshot(m, txs) {
      assert Outpoint(TxHash(txs[0]), 0) in Creates(txs[0]);
      assert Spends(txs[i]) <= m.Keys && Creates(txs[0]) !! m.Keys;
    }
  }

  /** applyBlockWithUndo: the block's effect on the unspent outputs, and the record to undo it. On a
      block whose inputs were validated it can only fail by a failing write. */
  method ApplyBlockWithUndo(store: Store, b: Block) returns (r: Option<Undo>)
    modifies store.db
    ensures store.db.disk.Rest() == old(store.db.disk.Rest())
    ensures r.Some? ==> store.db.disk.utxos == ApplyBlock(old(store.db.disk.utxos), b)
    ensures r.Some? ==> r.value == UndoFor(old(store.db.disk.utxos), b, 0)
    ensures r.Some? && IndexesOk(old(store.db.disk)) && Snapshot(old(store.db.disk.utxos), b.txs) ==> IndexesOk(store.db.disk)
    ensures r.Some? ==> store.db.writesLeft == old(store.db.writesLeft) - BlockWrites(old(store.db.disk.utxos), b.txs, b.header.height)
    ensures r.None? && Snapshot(old(store.db.disk.utxos), b.txs) && AllDistinctSpends(b.txs) ==>
              store.db.writesLeft == 0 && old(store.db.writesLeft) < BlockWrites(old(store.db.disk.utxos), b.txs, b.header.height)
    ensures old(store.db.writesLeft) == 0 ==> store.db.disk == old(store.db.disk)
    ensures old(store.db.writesLeft) > 0 && StartsWithPayment(b.txs) && Snapshot(old(store.db.disk.utxos), b.txs) ==> Outpoint(TxHash(b.txs[0]), 0) in store.db.disk.utxos
    ensures OutputKeys(store.db.disk) + store.db.writesLeft <= old(OutputKeys(store.db.disk) + store.db.writesLeft)
  {
    hide *;
    ghost var m := store.db.disk.utxos;
    var height := b.header.height;
    var undo := Undo([], [], [], 0);
    UndoPrefixEnds(m, b);
    for i := 0 to |b.txs|
      invariant store.db.disk.Rest() == old(store.db.disk.Rest())
      invariant store.db.disk.utxos == ApplyTxs(m, b.txs[..i], height)
      invariant undo == UndoPrefix(m, b.txs, height, i)
      invariant IndexesOk(old(store.db.disk)) && Snapshot(m, b.txs) ==> IndexesOk(store.db.disk)
      invariant store.db.writesLeft == old(store.db.writesLeft) - BlockWrites(m, b.txs[..i], height)
      invariant old(store.db.writesLeft) == 0 ==> store.db.disk == old(store.db.disk) && store.db.writesLeft == 0
      invariant old(store.db.writesLeft) > 0 && StartsWithPayment(b.txs) && i > 0 && Snapshot(m, b.txs) ==> Outpoint(TxHash(b.txs[0]), 0) in store.db.disk.utxos
      invariant OutputKeys(store.db.disk) + store.db.writesLeft <= old(OutputKeys(store.db.disk) + store.db.writesLeft)
    {
      var t := b.txs[i];
      UndoPrefixGrows(m, b.txs, height, i);
      BlockWritesStep(m, b.txs, height, i);
      BlockWritesGrow(m, b.txs, height, i + 1);
      FirstOutputStays(m, b.txs, i);
      if Snapshot(m, b.txs) {
        InputsSurvive(m, b.txs, height, i);
        if AllDistinctSpends(b.txs) {
          DistinctAt(b.txs, i);
        }
      }
      var spent := ApplyTransaction(store, t, height, i == 0 && height > 0);
      if spent.None? {
        return None;
      }
      undo := Undo(undo.spent + spent.value, undo.created + CreatedSeq(t), undo.txHashes + [TxHash(t)], 0);
    }
    return Some(undo);
  }

  // ---------------------------------------------------------------- genesis

  lemma IsSpent(ins: seq<Input>, i: nat)
    requires i < |ins| && !ins[i].prevOut.IsZero()
    ensures ins[i].prevOut in SpendsOf(ins)
  {
  }

  /** applyBlock's spending loop: deletes without asking whether the output is there. */
  method DeleteInputs(store: Store, ins: seq<Input>) returns (ok: bool)
    modifies store.db
    ensures store.db.disk.Rest() == old(store.db.disk.Rest())
    ensures ok ==> store.db.disk.utxos == old(store.db.disk.utxos) - SpendsOf(ins)
    ensures ok && IndexesOk(old(store.db.disk)) ==> IndexesOk(store.db.disk)
    ensures !ok ==> store.db.writesLeft == 0
    ensures SpendsOf(ins) == {} ==> ok && store.db.disk == old(store.db.disk)
  {
    hide *;
    ok := true;
    NothingSpent(store.db.disk.utxos, ins);
    for i := 0 to |ins|
      invariant SpendsOf(ins) == {} ==> store.db.disk == old(store.db.disk)
      invariant store.db.disk.Rest() == old(store.db.disk.Rest())
      invariant store.db.disk.utxos == old(store.db.disk.utxos) - SpendsOf(ins[..i])
      invariant IndexesOk(old(store.db.disk)) ==> IndexesOk(store.db.disk)
    {
      var op := ins[i].prevOut;
      SpendsOfGrows(ins, i);
      if op.IsZero() {
        continue;
      }
      IsSpent(ins, i);
      WithoutUtxoIs(store.db.disk, op);
      if IndexesOk(store.db.disk) {
        DeleteKeepsIndexes(store.db.disk, op);
      }
      ok := store.Delete(op);
      if !ok {
        return;
      }
    }
    assert ins[..|ins|] == ins;
    ok := true;
  }

  /** applyBlock, as it is used on the one block that is not validated: no output is locked, so it
      agrees with the replaying path on blocks that spend no stake. */
  method ApplyUnvalidated(store: Store, b: Block, ghost full: Disk) returns (ok: bool)
    modifies store.db
    ensures |b.txs| == 1 && Spends(b.txs[0]) == {} && Within(old(store.db.disk), full) && HasOutputs(full, b.txs[0], |b.txs[0].outputs|, b.header.height, b.header.height > 0, 0) ==>
              Within(store.db.disk, full) && (ok ==> HasOutputs(store.db.disk, b.txs[0], |b.txs[0].outputs|, b.header.height, b.header.height > 0, 0))
    ensures store.db.disk.Rest() == old(store.db.disk.Rest())
    ensures ok && (forall t :: t in b.txs ==> Spends(t) == {}) ==> store.db.disk.utxos == ApplyBlock(old(store.db.disk.utxos), b)
    ensures ok && IndexesOk(old(store.db.disk)) && Snapshot(old(store.db.disk.utxos), b.txs) && (forall t :: t in b.txs ==> Spends(t) == {}) ==>
              IndexesOk(store.db.disk)
    ensures !ok ==> store.db.writesLeft == 0
  {
    hide *;
    ghost var m := store.db.disk.utxos;
    ghost var spendless := forall t :: t in b.txs ==> Spends(t) == {};
    var height := b.header.height;
    UndoPrefixEnds(m, b);
    ghost var among := |b.txs| == 1 && Spends(b.txs[0]) == {} && Within(store.db.disk, full) && HasOutputs(full, b.txs[0], |b.txs[0].outputs|, height, height > 0, 0);
    for i := 0 to |b.txs|
      invariant among ==> Within(store.db.disk, full) && (i > 0 ==> HasOutputs(store.db.disk, b.txs[0], |b.txs[0].outputs|, height, height > 0, 0))
      invariant store.db.disk.Rest() == old(store.db.disk.Rest())
      invariant spendless ==> store.db.disk.utxos == ApplyTxs(m, b.txs[..i], height)
      invariant spendless && IndexesOk(old(store.db.disk)) && Snapshot(m, b.txs) ==> IndexesOk(store.db.disk)
    {
      var t := b.txs[i];
      UndoPrefixGrows(m, b.txs, height, i);
      if Snapshot(m, b.txs) {
        InputsSurvive(m, b.txs, height, i);
      }
      if spendless {
        SpendlessTx(store.db.disk.utxos, t, height, i == 0 && height > 0);
      }
      SpendsAre(t);
      ok := DeleteInputs(store, t.inputs);
      if !ok {
        return;
      }
      var created := CreateOutputs(store, t, height, i == 0 && height > 0, 0, full);
      if created.None? {
        return false;
      }
    }
    ok := true;
  }

  lemma SpendsAre(t: Tx)
    ensures Spends(t) == SpendsOf(t.inputs)
  {
  }

  lemma SpendlessTx(m: UtxoMap, t: Tx, height: nat, coinbase: bool)
    requires Spends(t) == {}
    ensures SpendsOf(t.inputs) == {} && m - {} == m
    ensures ApplyTx(m, t, height, coinbase) == WithOutputs(m, t, |t.outputs|, height, coinbase, 0)
  {
    ApplyTxCreates(m, t, height, coinbase);
    assert forall i :: 0 <= i < |t.inputs| && !t.inputs[i].prevOut.IsZero() ==> t.inputs[i].prevOut in Spends(t);
    assert !SpendsStake(m, t);
    assert m - Spends(t) == m;
  }

  // ---------------------------------------------------------------- reverting

  /** The loop of revertBlock that deletes what the block created, last first. */
  method DeleteCreated(store: Store, created: seq<Outpoint>) returns (ok: bool)
    modifies store.db
    ensures store.db.disk.Rest() == old(store.db.disk.Rest())
    ensures ok ==> store.db.disk.utxos == old(store.db.disk.utxos) - Elements(created)
    ensures ok && IndexesOk(old(store.db.disk)) ==> IndexesOk(store.db.disk)
    ensures !ok ==> store.db.writesLeft == 0
  {
    hide IndexesOk, WithoutUtxo, DeleteWrites, OutputKeys;
    for i := |created| downto 0
      invariant store.db.disk.Rest() == old(store.db.disk.Rest())
      invariant store.db.disk.utxos == old(store.db.disk.utxos) - Elements(created[i..])
      invariant IndexesOk(old(store.db.disk)) ==> IndexesOk(store.db.disk)
    {
      WithoutUtxoIs(store.db.disk, created[i]);
      if IndexesOk(store.db.disk) {
        DeleteKeepsIndexes(store.db.disk, created[i]);
      }
      ok := store.Delete(created[i]);
      if !ok {
        return;
      }
      assert created[i..] == [created[i]] + created[i + 1..];
    }
    assert created[0..] == created;
    ok := true;
  }

  lemma RestoreSteps(m: UtxoMap, spent: seq<Utxo>, i: nat)
    requires i < |spent|
    ensures Restore(m, spent[..i + 1]) == Restore(m, spent[..i])[spent[i].outpoint := spent[i]]
  {
    assert spent[..i + 1][..i] == spent[..i];
  }

  lemma {:induction false} RestoreMeets(m: UtxoMap, spent: seq<Utxo>, i: nat, op: Outpoint)
    requires i <= |spent| && op in Restore(m, spent[..i])
    ensures (op in m && m[op] == Restore(m, spent[..i])[op]) || exists k :: 0 <= k < i && spent[k].outpoint == op && spent[k] == Restore(m, spent[..i])[op]
    decreases i
  {
    if i > 0 {
      RestoreSteps(m, spent, i - 1);
      if spent[i - 1].outpoint != op {
        RestoreMeets(m, spent, i - 1, op);
      }
    } else {
      assert spent[..0] == [];
    }
  }

  /** The loop of revertBlock that puts back what the block spent. */
  method RestoreSpent(store: Store, spent: seq<Utxo>) returns (ok: bool)
    modifies store.db
    ensures store.db.disk.Rest() == old(store.db.disk.Rest())
    ensures ok ==> store.db.disk.utxos == Restore(old(store.db.disk.utxos), spent)
    ensures ok && IndexesOk(old(store.db.disk)) && Restorable(old(store.db.disk.utxos), spent) ==> IndexesOk(store.db.disk)
    ensures !ok ==> store.db.writesLeft == 0
  {
    ghost var m := store.db.disk.utxos;
    assert spent[..0] == [];
    for i := 0 to |spent|
      invariant store.db.disk.Rest() == old(store.db.disk.Rest())
      invariant store.db.disk.utxos == Restore(m, spent[..i])
      invariant IndexesOk(old(store.db.disk)) && Restorable(m, spent) ==> IndexesOk(store.db.disk)
    {
      RestoreSteps(m, spent, i);
      if IndexesOk(store.db.disk) && Restorable(m, spent) {
        PutKeepsIndexes(store.db.disk, spent[i]);
        if spent[i].outpoint in store.db.disk.utxos {
          RestoreMeets(m, spent, i, spent[i].outpoint);
          assert store.db.disk.utxos[spent[i].outpoint] == spent[i];
        }
      }
      ok := store.Put(spent[i]);
      if !ok {
        return;
      }
    }
    assert spent[..|spent|] == spent;
    ok := true;
  }

  /** revertBlock. */
  method RevertBlock(store: Store, blocks: Blocks, undo: Undo) returns (ok: bool)
    requires store.db == blocks.db
    modifies store.db
    ensures store.db.disk.Rest() == old(store.db.disk.Rest()).(txs := store.db.disk.txs)
    ensures ok ==> store.db.disk.utxos == Revert(old(store.db.disk.utxos), undo)
    ensures ok ==> store.db.disk.txs == old(store.db.disk.txs) - Elements(undo.txHashes)
    ensures ok && IndexesOk(old(store.db.disk)) && Restorable(old(store.db.disk.utxos) - Elements(undo.created), undo.spent) ==> IndexesOk(store.db.disk)
    ensures !ok ==> store.db.writesLeft == 0
  {
    ok := DeleteCreated(store, undo.created);
    if !ok {
      return;
    }
    ok := RestoreSpent(store, undo.spent);
    if !ok {
      return;
    }
    assert store.db.disk.txs == store.db.disk.Rest().txs;
    ok := blocks.DeleteTxIndexes(undo.txHashes);
  }
}
