/** What a block does to the set of unspent outputs, as functions on maps: the specification
    of applyBlockWithUndo and revertBlock (internal/chain/reorg.go), with the theorems that
    undoing inverts applying and that validating against the pre-block set is enough. */
module Ledger {
  import opened Primitives
  import opened Types

  /** The outpoints a transaction spends; the zero outpoint marks a coinbase and spends nothing. */
  function Spends(t: Tx): set<Outpoint> {
    SpendsOf(t.inputs)
  }

  function SpendsOf(ins: seq<Input>): set<Outpoint> {
    set i | 0 <= i < |ins| && !ins[i].prevOut.IsZero() :: ins[i].prevOut
  }

  lemma SpendsOfGrows(ins: seq<Input>, k: nat)
    requires k < |ins|
    ensures SpendsOf(ins[..k + 1]) == SpendsOf(ins[..k]) + (if ins[k].prevOut.IsZero() then {} else {ins[k].prevOut})
  {
    var more, less := ins[..k + 1], ins[..k];
    assert more[k] == ins[k];
    assert forall i :: 0 <= i < k ==> more[i] == less[i];
    assert forall op :: op in SpendsOf(less) ==> op in SpendsOf(more);
  }

  function Creates(t: Tx): set<Outpoint> {
    set i: nat | i < |t.outputs| :: Outpoint(TxHash(t), i)
  }

  /** Spending any stake output locks every output of the transaction for the cooldown. */
  predicate SpendsStake(m: UtxoMap, t: Tx) {
    exists i :: 0 <= i < |t.inputs| && IsStakeSpend(m, t.inputs[i].prevOut)
  }

  predicate IsStakeSpend(m: UtxoMap, op: Outpoint) {
    !op.IsZero() && op in m && m[op].script.kind == Stake
  }

  function LockFor(m: UtxoMap, t: Tx, height: nat): nat {
    if SpendsStake(m, t) then height + UNSTAKE_COOLDOWN else 0
  }

  function NewUtxo(t: Tx, i: nat, height: nat, coinbase: bool, lock: nat): Utxo
    requires i < |t.outputs|
  {
    Utxo(Outpoint(TxHash(t), i), t.outputs[i].value, t.outputs[i].script, t.outputs[i].token, height, coinbase, lock)
  }

  function CreatedMap(t: Tx, height: nat, coinbase: bool, lock: nat): UtxoMap {
    map op | op in Creates(t) :: NewUtxo(t, op.index, height, coinbase, lock)
  }

  function ApplyTx(m: UtxoMap, t: Tx, height: nat, coinbase: bool): UtxoMap {
    (m - Spends(t)) + CreatedMap(t, height, coinbase, LockFor(m, t, height))
  }

  /** Transaction 0 of a block above genesis is the coinbase. */
  function ApplyTxs(m: UtxoMap, txs: seq<Tx>, height: nat): UtxoMap {
    if |txs| == 0 then m else
      var n := |txs| - 1;
      ApplyTx(ApplyTxs(m, txs[..n], height), txs[n], height, n == 0 && height > 0)
  }

  function ApplyBlock(m: UtxoMap, b: Block): UtxoMap {
    ApplyTxs(m, b.txs, b.header.height)
  }

  // ---------------------------------------------------------------- undo records

  function SpentBy(m: UtxoMap, ins: seq<Input>): seq<Utxo> {
    if |ins| == 0 then [] else
      var op := ins[|ins| - 1].prevOut;
      SpentBy(m, ins[..|ins| - 1]) + (if op.IsZero() || op !in m then [] else [m[op]])
  }

  function SpentByTxs(m: UtxoMap, txs: seq<Tx>, height: nat): seq<Utxo> {
    if |txs| == 0 then [] else
      var n := |txs| - 1;
      SpentByTxs(m, txs[..n], height) + SpentBy(ApplyTxs(m, txs[..n], height), txs[n].inputs)
  }

  function CreatedSeq(t: Tx): (r: seq<Outpoint>)
    ensures forall op :: op in r <==> op in Creates(t)
  {
    var r := seq(|t.outputs|, i requires 0 <= i => Outpoint(TxHash(t), i));
    assert forall i: nat :: i < |t.outputs| ==> r[i] == Outpoint(TxHash(t), i);
    r
  }

  function CreatedByTxs(txs: seq<Tx>): seq<Outpoint> {
    if |txs| == 0 then [] else CreatedByTxs(txs[..|txs| - 1]) + CreatedSeq(txs[|txs| - 1])
  }

  function UndoFor(m: UtxoMap, b: Block, reward: nat): Undo {
    Undo(SpentByTxs(m, b.txs, b.header.height), CreatedByTxs(b.txs), TxHashes(b.txs), reward)
  }

  function Restore(m: UtxoMap, spent: seq<Utxo>): UtxoMap {
    if |spent| == 0 then m else
      var u := spent[|spent| - 1];
      Restore(m, spent[..|spent| - 1])[u.outpoint := u]
  }

  /** revertBlock: drop what the block created, put back what it spent. */
  function Revert(m: UtxoMap, undo: Undo): UtxoMap {
    Restore(m - Elements(undo.created), undo.spent)
  }

  // ---------------------------------------------------------------- the snapshot condition

  /** Every output is stored under its own outpoint. */
  ghost predicate KeysOk(m: UtxoMap) {
    forall op :: op in m ==> m[op].outpoint == op
  }

  /** What validation against the pre-block set `m` establishes about a block's inputs, together
      with the freshness of what it creates. */
  ghost predicate Snapshot(m: UtxoMap, txs: seq<Tx>) {
    && (forall i :: 0 <= i < |txs| ==> Spends(txs[i]) <= m.Keys)
    && (forall i, j :: 0 <= i < j < |txs| ==> Spends(txs[i]) !! Spends(txs[j]))
    && (forall i :: 0 <= i < |txs| ==> Creates(txs[i]) !! m.Keys)
    && (forall i, j :: 0 <= i < j < |txs| ==> TxHash(txs[i]) != TxHash(txs[j]))
  }

  function AllSpends(txs: seq<Tx>): set<Outpoint> {
    if |txs| == 0 then {} else AllSpends(txs[..|txs| - 1]) + Spends(txs[|txs| - 1])
  }

  function AllCreates(txs: seq<Tx>): set<Outpoint> {
    if |txs| == 0 then {} else AllCreates(txs[..|txs| - 1]) + Creates(txs[|txs| - 1])
  }

  lemma {:induction false} AllSpendsIs(txs: seq<Tx>)
    ensures forall op :: op in AllSpends(txs) <==> exists i :: 0 <= i < |txs| && op in Spends(txs[i])
  {
    if |txs| > 0 {
      var n := |txs| - 1;
      AllSpendsIs(txs[..n]);
      forall op, i | 0 <= i < |txs| && op in Spends(txs[i])
        ensures op in AllSpends(txs)
      {
        if i < n { assert txs[..n][i] == txs[i]; }
      }
    }
  }

  lemma {:induction false} AllCreatesIs(txs: seq<Tx>)
    ensures forall op :: op in AllCreates(txs) <==> exists i :: 0 <= i < |txs| && op in Creates(txs[i])
  {
    if |txs| > 0 {
      var n := |txs| - 1;
      AllCreatesIs(txs[..n]);
      forall op, i | 0 <= i < |txs| && op in Creates(txs[i])
        ensures op in AllCreates(txs)
      {
        if i < n { assert txs[..n][i] == txs[i]; }
      }
    }
  }

  lemma SnapshotPrefix(m: UtxoMap, txs: seq<Tx>, n: nat)
    requires Snapshot(m, txs) && n <= |txs|
    ensures Snapshot(m, txs[..n])
  {
  }

  lemma {:induction false} LastIsApart(m: UtxoMap, txs: seq<Tx>, n: nat)
    requires Snapshot(m, txs) && n < |txs|
    ensures Spends(txs[n]) !! AllSpends(txs[..n])
    ensures Spends(txs[n]) !! AllCreates(txs[..n])
    ensures Creates(txs[n]) !! AllCreates(txs[..n])
  {
    AllSpendsIs(txs[..n]);
    AllCreatesIs(txs[..n]);
    forall op | op in AllCreates(txs[..n])
      ensures op !in Spends(txs[n]) && op !in Creates(txs[n])
    {
      var i :| 0 <= i < n && op in Creates(txs[..n][i]);
      assert txs[..n][i] == txs[i];
    }
    forall op | op in AllSpends(txs[..n])
      ensures op !in Spends(txs[n])
    {
      var i :| 0 <= i < n && op in Spends(txs[..n][i]);
      assert txs[..n][i] == txs[i];
    }
  }

  ghost predicate Untouched(m: UtxoMap, m': UtxoMap, gone: set<Outpoint>) {
    forall op :: op in m && op !in gone ==> op in m' && m'[op] == m[op]
  }

  /** After any prefix of the block, exactly the prefix's spends are gone and its outputs are new. */
  lemma {:induction false} AfterPrefix(m: UtxoMap, txs: seq<Tx>, height: nat)
    requires Snapshot(m, txs)
    ensures ApplyTxs(m, txs, height).Keys == (m.Keys - AllSpends(txs)) + AllCreates(txs)
    ensures Untouched(m, ApplyTxs(m, txs, height), AllSpends(txs))
    ensures AllSpends(txs) <= m.Keys && AllCreates(txs) !! m.Keys
    decreases |txs|
  {
    if |txs| > 0 {
      hide ApplyTx, Spends, Creates;
      var n := |txs| - 1;
      SnapshotPrefix(m, txs, n);
      AfterPrefix(m, txs[..n], height);
      LastIsApart(m, txs, n);
      SpendsPresent(m, txs, n);
      var m' := ApplyTxs(m, txs[..n], height);
      hide Snapshot, Untouched;
      AfterOne(m', txs[n], height, n == 0 && height > 0);
      KeysCompose(m, m', ApplyTxs(m, txs, height), AllSpends(txs[..n]), AllCreates(txs[..n]), Spends(txs[n]), Creates(txs[n]));
    }
  }

  lemma KeysCompose(m: UtxoMap, m': UtxoMap, m'': UtxoMap, gone: set<Outpoint>, made: set<Outpoint>, spends: set<Outpoint>, creates: set<Outpoint>)
    requires m'.Keys == (m.Keys - gone) + made && gone <= m.Keys && made !! m.Keys && Untouched(m, m', gone)
    requires m''.Keys == (m'.Keys - spends) + creates && Untouched(m', m'', spends + creates)
    requires spends <= m.Keys && spends !! gone && spends !! made && creates !! m.Keys && creates !! made
    ensures m''.Keys == (m.Keys - (gone + spends)) + (made + creates)
    ensures Untouched(m, m'', gone + spends) && gone + spends <= m.Keys && (made + creates) !! m.Keys
  {
  }

  lemma SpendsPresent(m: UtxoMap, txs: seq<Tx>, n: nat)
    requires Snapshot(m, txs) && n < |txs|
    ensures Spends(txs[n]) <= m.Keys && Creates(txs[n]) !! m.Keys
  {
  }

  lemma AfterOne(m: UtxoMap, t: Tx, height: nat, coinbase: bool)
    ensures ApplyTx(m, t, height, coinbase).Keys == (m.Keys - Spends(t)) + Creates(t)
    ensures Untouched(m, ApplyTx(m, t, height, coinbase), Spends(t) + Creates(t))
  {
  }

  /** A transaction sees, in its intermediate set, exactly the outputs it was validated against:
      so a block validated as a snapshot never fails half-way. */
  lemma {:induction false} InputsSurvive(m: UtxoMap, txs: seq<Tx>, height: nat, n: nat)
    requires Snapshot(m, txs) && n < |txs|
    ensures Spends(txs[n]) <= ApplyTxs(m, txs[..n], height).Keys
    ensures forall op :: op in Spends(txs[n]) ==> ApplyTxs(m, txs[..n], height)[op] == m[op]
    ensures SpendsStake(ApplyTxs(m, txs[..n], height), txs[n]) <==> SpendsStake(m, txs[n])
    ensures Creates(txs[n]) !! ApplyTxs(m, txs[..n], height).Keys
  {
    AfterPrefix(m, txs[..n], height);
    LastIsApart(m, txs, n);
    var m' := ApplyTxs(m, txs[..n], height);
    assert forall op :: op in Spends(txs[n]) ==> op in m' && m'[op] == m[op];
    forall i | 0 <= i < |txs[n].inputs|
      ensures IsStakeSpend(m', txs[n].inputs[i].prevOut) <==> IsStakeSpend(m, txs[n].inputs[i].prevOut)
    {
      var op := txs[n].inputs[i].prevOut;
      assert op.IsZero() || op in Spends(txs[n]);
    }
  }

  // ---------------------------------------------------------------- undo inverts apply

  lemma {:induction false} SpentByElements(m: UtxoMap, ins: seq<Input>)
    requires KeysOk(m)
    ensures forall u :: u in SpentBy(m, ins) ==> u.outpoint in m && m[u.outpoint] == u
    ensures forall i :: 0 <= i < |ins| && !ins[i].prevOut.IsZero() && ins[i].prevOut in m ==> m[ins[i].prevOut] in SpentBy(m, ins)
    ensures forall u :: u in SpentBy(m, ins) ==> exists i :: 0 <= i < |ins| && !ins[i].prevOut.IsZero() && ins[i].prevOut == u.outpoint
  {
    if |ins| > 0 {
      var n := |ins| - 1;
      SpentByElements(m, ins[..n]);
      forall u | u in SpentBy(m, ins)
        ensures exists i :: 0 <= i < |ins| && !ins[i].prevOut.IsZero() && ins[i].prevOut == u.outpoint
      {
        if u in SpentBy(m, ins[..n]) {
          var i :| 0 <= i < n && !ins[..n][i].prevOut.IsZero() && ins[..n][i].prevOut == u.outpoint;
          assert ins[i].prevOut == u.outpoint;
        } else {
          assert ins[n].prevOut == u.outpoint;
        }
      }
      forall i | 0 <= i < |ins| && !ins[i].prevOut.IsZero() && ins[i].prevOut in m
        ensures m[ins[i].prevOut] in SpentBy(m, ins)
      {
        if i < n {
          assert ins[..n][i] == ins[i];
        }
      }
    }
  }

  lemma {:induction false} KeysOkAfter(m: UtxoMap, txs: seq<Tx>, height: nat)
    requires KeysOk(m)
    ensures KeysOk(ApplyTxs(m, txs, height))
    decreases |txs|
  {
    if |txs| > 0 {
      KeysOkAfter(m, txs[..|txs| - 1], height);
    }
  }

  /** `spent` lists exactly the outputs `m` holds at the outpoints of `ops`. */
  ghost predicate Records(spent: seq<Utxo>, m: UtxoMap, ops: set<Outpoint>) {
    && (forall u :: u in spent ==> u.outpoint in ops)
    && (forall u :: u in spent ==> u.outpoint in m && m[u.outpoint] == u)
    && (forall op :: op in ops ==> op in m && m[op] in spent)
  }

  lemma {:induction false} SpentByRecords(m: UtxoMap, t: Tx)
    requires KeysOk(m) && Spends(t) <= m.Keys
    ensures Records(SpentBy(m, t.inputs), m, Spends(t))
  {
    SpentByElements(m, t.inputs);
    forall op | op in Spends(t)
      ensures m[op] in SpentBy(m, t.inputs)
    {
      var i :| 0 <= i < |t.inputs| && !t.inputs[i].prevOut.IsZero() && t.inputs[i].prevOut == op;
    }
  }

  /** The undo record of a snapshot-valid block holds the pre-block outputs it spends, unaltered. */
  lemma {:induction false} SpentAreOriginal(m: UtxoMap, txs: seq<Tx>, height: nat)
    requires KeysOk(m) && Snapshot(m, txs)
    ensures Records(SpentByTxs(m, txs, height), m, AllSpends(txs))
    decreases |txs|
  {
    if |txs| > 0 {
      var n := |txs| - 1;
      SpentAreOriginal(m, txs[..n], height);
      InputsSurvive(m, txs, height, n);
      KeysOkAfter(m, txs[..n], height);
      SpentByRecords(ApplyTxs(m, txs[..n], height), txs[n]);
    }
  }

  /** Putting the recorded outputs back adds them to what is there. */
  lemma {:induction false} RestoreIs(m: UtxoMap, spent: seq<Utxo>, whole: UtxoMap)
    requires forall u :: u in spent ==> u.outpoint in whole && whole[u.outpoint] == u
    ensures forall op :: op in Restore(m, spent) ==> op in m || (op in whole && whole[op] in spent)
    ensures forall op :: op in Restore(m, spent) ==> (op in m && m[op] == Restore(m, spent)[op]) || (op in whole && whole[op] == Restore(m, spent)[op])
    ensures forall op :: op in m ==> op in Restore(m, spent)
    ensures forall u :: u in spent ==> u.outpoint in Restore(m, spent) && Restore(m, spent)[u.outpoint] == u
    decreases |spent|
  {
    if |spent| > 0 {
      var n := |spent| - 1;
      RestoreIs(m, spent[..n], whole);
      assert spent == spent[..n] + [spent[n]];
    }
  }

  lemma {:induction false} CreatedElements(txs: seq<Tx>)
    ensures Elements(CreatedByTxs(txs)) == AllCreates(txs)
    decreases |txs|
  {
    if |txs| > 0 {
      var n := |txs| - 1;
      CreatedElements(txs[..n]);
      assert AllCreates(txs) == AllCreates(txs[..n]) + Creates(txs[n]);
      assert Elements(CreatedSeq(txs[n])) == Creates(txs[n]);
    }
  }

  lemma RestoreCompletes(m: UtxoMap, bare: UtxoMap, spent: seq<Utxo>, ops: set<Outpoint>)
    requires KeysOk(m) && Records(spent, m, ops)
    requires bare.Keys == m.Keys - ops && Untouched(m, bare, ops)
    ensures Restore(bare, spent) == m
  {
    RestoreIs(bare, spent, m);
    var r := Restore(bare, spent);
    forall op | op in m
      ensures op in r && r[op] == m[op]
    {
      if op in ops {
        assert m[op] in spent;
      }
    }
  }

  /** Reverting a block restores the exact map it was applied to: heights, coinbase flags and
      locks included. */
  lemma {:induction false} UndoInvertsApply(m: UtxoMap, b: Block, reward: nat)
    requires KeysOk(m) && Snapshot(m, b.txs)
    ensures Revert(ApplyBlock(m, b), UndoFor(m, b, reward)) == m
  {
    AfterPrefix(m, b.txs, b.header.height);
    CreatedElements(b.txs);
    SpentAreOriginal(m, b.txs, b.header.height);
    RestoreCompletes(m, ApplyBlock(m, b) - AllCreates(b.txs), SpentByTxs(m, b.txs, b.header.height), AllSpends(b.txs));
  }

  /** Without freshness the law fails: a coinbase-only block that re-creates an outpoint still
      unspent loses the older output for good. */
  lemma StaleOutpointBreaksUndo(m: UtxoMap, t: Tx, b: Block, op: Outpoint)
    requires op in m && op in Creates(t) && b.txs == [t]
    requires |t.inputs| == 1 && t.inputs[0].prevOut.IsZero()
    ensures op !in Revert(ApplyBlock(m, b), UndoFor(m, b, 0))
  {
    assert b.txs[..0] == [];
    CreatedElements(b.txs);
    assert SpentBy(ApplyTxs(m, [], b.header.height), t.inputs) == [];
    assert SpentByTxs(m, b.txs, b.header.height) == SpentByTxs(m, [], b.header.height) + SpentBy(ApplyTxs(m, [], b.header.height), t.inputs);
  }
}
