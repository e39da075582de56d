/** When exactly reverting a block undoes it. Validation alone does not decide it: a block may create
    an outpoint that is still unspent, and then the older output survives only if the block has spent
    it by then. */
module Undoing {
  import opened Primitives
  import opened Types
  import opened Ledger
  import opened TxRules
  import opened BlockRules
  import opened StateRules
  import opened Replay

  /** What validation establishes about a block's inputs, and nothing about what it creates. */
  ghost predicate Checked(m: UtxoMap, txs: seq<Tx>) {
    && (forall i :: 0 <= i < |txs| ==> Spends(txs[i]) <= m.Keys)
    && (forall i, j :: 0 <= i < j < |txs| ==> Spends(txs[i]) !! Spends(txs[j]))
    && (forall i, j :: 0 <= i < j < |txs| ==> TxHash(txs[i]) != TxHash(txs[j]))
  }

  ghost predicate SpentBefore(txs: seq<Tx>, n: nat, op: Outpoint)
    requires n <= |txs|
  {
    exists j :: 0 <= j < n && op in Spends(txs[j])
  }

  /** Whatever the block creates over an unspent output, it has spent no later than there. */
  ghost predicate SpentFirst(m: UtxoMap, txs: seq<Tx>) {
    forall i, op :: 0 <= i < |txs| && op in Creates(txs[i]) && op in m ==> SpentBefore(txs, i + 1, op)
  }

  lemma PrefixChecked(m: UtxoMap, txs: seq<Tx>, n: nat)
    requires Checked(m, txs) && n <= |txs|
    ensures Checked(m, txs[..n])
    ensures SpentFirst(m, txs) ==> SpentFirst(m, txs[..n])
  {
    if SpentFirst(m, txs) {
      forall i, op | 0 <= i < n && op in Creates(txs[..n][i]) && op in m
        ensures SpentBefore(txs[..n], i + 1, op)
      {
        assert op in Creates(txs[i]) && SpentBefore(txs, i + 1, op);
        var j :| 0 <= j < i + 1 && op in Spends(txs[j]);
        assert op in Spends(txs[..n][j]);
      }
    }
  }

  lemma SpendsApart(m: UtxoMap, txs: seq<Tx>, n: nat)
    requires Checked(m, txs) && n < |txs|
    ensures Spends(txs[n]) !! AllSpends(txs[..n])
    ensures SpentFirst(m, txs) ==> Spends(txs[n]) !! AllCreates(txs[..n])
    ensures SpentFirst(m, txs) ==> forall op :: op in Creates(txs[n]) && op in m ==> op in AllSpends(txs[..n]) + Spends(txs[n])
  {
    AllSpendsIs(txs[..n]);
    AllCreatesIs(txs[..n]);
    forall op | op in AllSpends(txs[..n])
      ensures op !in Spends(txs[n])
    {
      var i :| 0 <= i < n && op in Spends(txs[..n][i]);
      assert txs[..n][i] == txs[i];
    }
    if SpentFirst(m, txs) {
      forall op | op in AllCreates(txs[..n])
        ensures op !in Spends(txs[n])
      {
        var i :| 0 <= i < n && op in Creates(txs[..n][i]);
        assert txs[..n][i] == txs[i];
        if op in m {
          assert SpentBefore(txs, i + 1, op);
          var j :| 0 <= j < i + 1 && op in Spends(txs[j]);
        }
      }
      forall op | op in Creates(txs[n]) && op in m
        ensures op in AllSpends(txs[..n]) + Spends(txs[n])
      {
        assert SpentBefore(txs, n + 1, op);
        var j :| 0 <= j < n + 1 && op in Spends(txs[j]);
        assert j < n ==> txs[..n][j] == txs[j];
      }
    }
  }

  lemma KeysOver(m: UtxoMap, m': UtxoMap, m'': UtxoMap, gone: set<Outpoint>, made: set<Outpoint>, spends: set<Outpoint>, creates: set<Outpoint>)
    requires m'.Keys == (m.Keys - gone) + made && gone <= m.Keys && made * m.Keys <= gone && Untouched(m, m', gone)
    requires m''.Keys == (m'.Keys - spends) + creates && Untouched(m', m'', spends + creates)
    requires spends <= m.Keys && spends !! gone && spends !! made && creates * m.Keys <= gone + spends
    ensures m''.Keys == (m.Keys - (gone + spends)) + (made + creates)
    ensures Untouched(m, m'', gone + spends) && gone + spends <= m.Keys && (made + creates) * m.Keys <= gone + spends
  {
  }

  /** Ledger's AfterPrefix and SpentAreOriginal hold under this weaker condition too. */
  lemma {:induction false} AfterChecked(m: UtxoMap, txs: seq<Tx>, height: nat)
    requires KeysOk(m) && Checked(m, txs) && SpentFirst(m, txs)
    ensures ApplyTxs(m, txs, height).Keys == (m.Keys - AllSpends(txs)) + AllCreates(txs)
    ensures Untouched(m, ApplyTxs(m, txs, height), AllSpends(txs))
    ensures AllSpends(txs) <= m.Keys && AllCreates(txs) * m.Keys <= AllSpends(txs)
    ensures Records(SpentByTxs(m, txs, height), m, AllSpends(txs))
    decreases |txs|
  {
    if |txs| > 0 {
      hide ApplyTx, Spends, Creates, SpentBy, Records;
      var n := |txs| - 1;
      PrefixChecked(m, txs, n);
      AfterChecked(m, txs[..n], height);
      SpendsApart(m, txs, n);
      var m' := ApplyTxs(m, txs[..n], height);
      KeysOkAfter(m, txs[..n], height);
      assert Spends(txs[n]) <= m.Keys;
      hide Checked, SpentFirst;
      SpentByRecords(m', txs[n]);
      AfterOne(m', txs[n], height, n == 0 && height > 0);
      RecordsJoin(SpentByTxs(m, txs[..n], height), SpentBy(m', txs[n].inputs), m, m', AllSpends(txs[..n]), Spends(txs[n]));
      KeysOver(m, m', ApplyTxs(m, txs, height), AllSpends(txs[..n]), AllCreates(txs[..n]), Spends(txs[n]), Creates(txs[n]));
    } else {
      assert SpentByTxs(m, txs, height) == [];
    }
  }

  lemma RecordsJoin(early: seq<Utxo>, late: seq<Utxo>, m: UtxoMap, m': UtxoMap, gone: set<Outpoint>, spends: set<Outpoint>)
    requires Records(early, m, gone) && Records(late, m', spends)
    requires spends <= m.Keys && spends !! gone && Untouched(m, m', gone)
    ensures Records(early + late, m, gone + spends)
  {
  }

  // ---------------------------------------------------------------- the other direction

  lemma {:induction false} RecordedIsSpent(m: UtxoMap, txs: seq<Tx>, height: nat)
    requires KeysOk(m)
    ensures forall u :: u in SpentByTxs(m, txs, height) ==> u.outpoint in AllSpends(txs)
    decreases |txs|
  {
    if |txs| > 0 {
      var n := |txs| - 1;
      RecordedIsSpent(m, txs[..n], height);
      KeysOkAfter(m, txs[..n], height);
      SpentByElements(ApplyTxs(m, txs[..n], height), txs[n].inputs);
    }
  }

  /** Every record of `op` has the height of the block. */
  ghost predicate RecordedAt(spent: seq<Utxo>, op: Outpoint, height: nat) {
    forall u :: u in spent && u.outpoint == op ==> u.height == height
  }

  lemma OneTx(m: UtxoMap, t: Tx, height: nat, coinbase: bool, op: Outpoint)
    ensures op in Creates(t) ==> op in ApplyTx(m, t, height, coinbase) && ApplyTx(m, t, height, coinbase)[op].height == height
    ensures op !in Creates(t) && op !in Spends(t) && op in m ==> op in ApplyTx(m, t, height, coinbase) && ApplyTx(m, t, height, coinbase)[op] == m[op]
    ensures op in Creates(t) ==> op.txId == TxHash(t)
  {
  }

  lemma PrefixTx(m: UtxoMap, txs: seq<Tx>, height: nat, n: nat)
    requires n < |txs|
    ensures ApplyTxs(m, txs[..n + 1], height) == ApplyTx(ApplyTxs(m, txs[..n], height), txs[n], height, n == 0 && height > 0)
    ensures SpentByTxs(m, txs[..n + 1], height) == SpentByTxs(m, txs[..n], height) + SpentBy(ApplyTxs(m, txs[..n], height), txs[n].inputs)
  {
    hide ApplyTx, SpentBy;
    assert txs[..n + 1][..n] == txs[..n];
  }

  lemma HashesApart(m: UtxoMap, txs: seq<Tx>, i: nat, j: nat)
    requires Checked(m, txs) && i < j < |txs|
    ensures TxHash(txs[i]) != TxHash(txs[j])
  {
  }

  /** An output stays, with its height, from where it is created to where it is spent. */
  lemma {:induction false} CreatedStays(m: UtxoMap, txs: seq<Tx>, height: nat, i: nat, n: nat, op: Outpoint)
    requires Checked(m, txs) && i < n <= |txs| && op in Creates(txs[i])
    requires forall k :: i < k < n ==> op !in Spends(txs[k])
    ensures op in ApplyTxs(m, txs[..n], height) && ApplyTxs(m, txs[..n], height)[op].height == height
    decreases n
  {
    hide *;
    PrefixTx(m, txs, height, n - 1);
    var m' := ApplyTxs(m, txs[..n - 1], height);
    OneTx(m', txs[n - 1], height, n == 1 && height > 0, op);
    if i < n - 1 {
      CreatedStays(m, txs, height, i, n - 1, op);
      HashesApart(m, txs, i, n - 1);
      OneTx(m', txs[i], height, false, op);
    }
  }

  /** An output created by the block and spent only afterwards is recorded as the block made it. */
  lemma {:induction false} LateSpendRecordsNew(m: UtxoMap, txs: seq<Tx>, height: nat, i: nat, n: nat, op: Outpoint)
    requires KeysOk(m) && Checked(m, txs) && i < |txs| && n <= |txs| && op in Creates(txs[i]) && !SpentBefore(txs, i + 1, op)
    ensures RecordedAt(SpentByTxs(m, txs[..n], height), op, height)
    decreases n
  {
    hide Spends, Creates, Checked, ApplyTxs, SpentByTxs, SpentBy;
    if n > 0 {
      LateSpendRecordsNew(m, txs, height, i, n - 1, op);
      PrefixTx(m, txs, height, n - 1);
      var m' := ApplyTxs(m, txs[..n - 1], height);
      KeysOkAfter(m, txs[..n - 1], height);
      SpentByElements(m', txs[n - 1].inputs);
      if op in Spends(txs[n - 1]) {
        OnlySpender(m, txs, n - 1, op);
        assert n - 1 > i;
        CreatedStays(m, txs, height, i, n - 1, op);
      } else {
        NotInput(txs[n - 1], op);
      }
    } else {
      NothingRecorded(m, txs, height, op);
    }
  }

  lemma NothingRecorded(m: UtxoMap, txs: seq<Tx>, height: nat, op: Outpoint)
    ensures RecordedAt(SpentByTxs(m, txs[..0], height), op, height)
  {
    assert txs[..0] == [];
  }

  lemma OnlySpender(m: UtxoMap, txs: seq<Tx>, n: nat, op: Outpoint)
    requires Checked(m, txs) && n < |txs| && op in Spends(txs[n])
    ensures forall k :: 0 <= k < n ==> op !in Spends(txs[k])
  {
  }

  lemma NotInput(t: Tx, op: Outpoint)
    requires op !in Spends(t)
    ensures forall k :: 0 <= k < |t.inputs| && t.inputs[k].prevOut == op ==> t.inputs[k].prevOut.IsZero()
  {
  }

  /** What Restore leaves under an outpoint that was dropped before is one of its records. */
  lemma {:induction false} RestoredIsRecord(m: UtxoMap, spent: seq<Utxo>, op: Outpoint)
    requires op !in m && op in Restore(m, spent)
    ensures Restore(m, spent)[op] in spent && Restore(m, spent)[op].outpoint == op
    decreases |spent|
  {
    var n := |spent| - 1;
    if spent[n].outpoint != op {
      RestoredIsRecord(m, spent[..n], op);
    }
  }

  lemma {:induction false} NotUndone(m: UtxoMap, b: Block, reward: nat, i: nat, op: Outpoint)
    requires KeysOk(m) && Checked(m, b.txs) && i < |b.txs| && op in Creates(b.txs[i]) && op in m && m[op].height != b.header.height
    requires !SpentBefore(b.txs, i + 1, op)
    ensures Revert(ApplyBlock(m, b), UndoFor(m, b, reward)) != m
  {
    var spent := SpentByTxs(m, b.txs, b.header.height);
    var bare := ApplyBlock(m, b) - AllCreates(b.txs);
    CreatedElements(b.txs);
    AllCreatesIs(b.txs);
    assert op !in bare;
    assert b.txs[..|b.txs|] == b.txs;
    LateSpendRecordsNew(m, b.txs, b.header.height, i, |b.txs|, op);
    if op in Restore(bare, spent) {
      RestoredIsRecord(bare, spent, op);
    }
  }

  /** Reverting undoes a validated block exactly when what it creates over an unspent output it has
      spent first. Unspent outputs are from below the block, as they are on any chain. */
  lemma {:induction false} UndoExactlyWhen(m: UtxoMap, b: Block, reward: nat)
    requires KeysOk(m) && Checked(m, b.txs) && forall op :: op in m ==> m[op].height < b.header.height
    ensures Revert(ApplyBlock(m, b), UndoFor(m, b, reward)) == m <==> SpentFirst(m, b.txs)
  {
    if SpentFirst(m, b.txs) {
      AfterChecked(m, b.txs, b.header.height);
      CreatedElements(b.txs);
      RestoreCompletes(m, ApplyBlock(m, b) - AllCreates(b.txs), SpentByTxs(m, b.txs, b.header.height), AllSpends(b.txs));
    } else {
      var i, op :| 0 <= i < |b.txs| && op in Creates(b.txs[i]) && op in m && !SpentBefore(b.txs, i + 1, op);
      NotUndone(m, b, reward, i, op);
    }
  }

  // ---------------------------------------------------------------- on a chain

  ghost predicate Below(m: UtxoMap, height: nat) {
    forall op :: op in m ==> m[op].height < height
  }

  lemma {:induction false} BelowAfter(m: UtxoMap, txs: seq<Tx>, height: nat)
    requires Below(m, height + 1)
    ensures Below(ApplyTxs(m, txs, height), height + 1)
    decreases |txs|
  {
    if |txs| > 0 {
      BelowAfter(m, txs[..|txs| - 1], height);
    }
  }

  /** Every unspent output of a valid chain was created by one of its blocks, below its next height. */
  lemma {:induction false} ChainOutputsBelow(rules: Rules, g: Block, chain: seq<Block>)
    requires ChainOk(rules, g, chain)
    ensures Below(Fold(chain).utxos, |chain|)
    decreases |chain|
  {
    hide ChainOk, CanExtend, Acceptable, BlockOk, GenesisOk, StateValid, ApplyTxs;
    LastBlock(rules, g, chain);
    var n := |chain| - 1;
    ChainHeights(rules, g, chain, n);
    if n == 0 {
      GenesisFold(g);
      BelowAfter(map[], g.txs, 0);
    } else {
      ChainOutputsBelow(rules, g, chain[..n]);
      BelowAfter(Fold(chain[..n]).utxos, chain[n].txs, n);
    }
  }

  /** So on any valid chain: whatever block comes next, if its inputs were checked, reverting it brings
      the unspent outputs back exactly when it spent first what it creates anew. */
  lemma {:induction false} ChainUndoExactlyWhen(rules: Rules, g: Block, chain: seq<Block>, b: Block, reward: nat)
    requires TxHashSound() && ChainOk(rules, g, chain)
    requires b.header.height == |chain| && Checked(Fold(chain).utxos, b.txs)
    ensures Revert(ApplyBlock(Fold(chain).utxos, b), UndoFor(Fold(chain).utxos, b, reward)) == Fold(chain).utxos <==>
            SpentFirst(Fold(chain).utxos, b.txs)
  {
    hide ChainOk, Fold, Checked, SpentFirst;
    ChainOutputsBelow(rules, g, chain);
    ChainProvenance(rules, g, chain);
    UndoExactlyWhen(Fold(chain).utxos, b, reward);
  }
}
