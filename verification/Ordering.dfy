/** Transactions are validated against the set before their block, so within a block their order
    decides nothing: any arrangement applies cleanly and ends in the same set. */
module Ordering {
  import opened Primitives
  import opened Types
  import opened Ledger
  import opened Weights
  import opened TxRules
  import opened Tokens
  import opened BlockRules
  import opened StateRules
  import opened Replay
  import opened Merkle
  import opened Sorting
  import opened Validators

  // ---------------------------------------------------------------- valid before the block, valid in its place

  lemma {:induction false} TokenSumsAgree(m: UtxoMap, m': UtxoMap, t: Tx)
    requires forall op :: op in Spends(t) ==> op in m && op in m' && m'[op] == m[op]
    ensures TokensOk(t, m) <==> TokensOk(t, m')
  {
    forall id
      ensures TokenSumsFit(t, m, id) <==> TokenSumsFit(t, m', id)
      ensures TokenBalanced(t, m, id) <==> TokenBalanced(t, m', id)
    {
      InSumAgrees(m, m', t.inputs, Carries(id));
      TokenInputsAgree(m, m', t, id);
    }
  }

  lemma TokenInputsAgree(m: UtxoMap, m': UtxoMap, t: Tx, id: TokenId)
    requires forall op :: op in Spends(t) ==> op in m && op in m' && m'[op] == m[op]
    ensures HasTokenInput(m, t.inputs, id) <==> HasTokenInput(m', t.inputs, id)
  {
    forall i | 0 <= i < |t.inputs|
      ensures TokenInputAt(m, t.inputs[i], id) <==> TokenInputAt(m', t.inputs[i], id)
    {
      assert t.inputs[i].prevOut.IsZero() || t.inputs[i].prevOut in Spends(t);
    }
  }

  lemma {:induction false} SpendOkAgrees(m: UtxoMap, m': UtxoMap, t: Tx)
    requires forall op :: op in Spends(t) ==> op in m && op in m' && m'[op] == m[op]
    ensures SpendOk(t, m) <==> SpendOk(t, m')
  {
    hide TxOk, Unlocks, InSum, OutSum;
    InSumAgrees(m, m', t.inputs, ValueOf);
    forall i | 0 <= i < |t.inputs|
      ensures InputOk(t.inputs[i], m) <==> InputOk(t.inputs[i], m')
    {
      assert t.inputs[i].prevOut.IsZero() || t.inputs[i].prevOut in Spends(t);
    }
  }

  lemma MatureAgrees(m: UtxoMap, m': UtxoMap, t: Tx, height: Uint64)
    requires forall op :: op in Spends(t) ==> op in m && op in m' && m'[op] == m[op]
    ensures TxMature(m, t, height) <==> TxMature(m', t, height)
  {
    forall i | 0 <= i < |t.inputs|
      ensures InputMature(m, t.inputs[i].prevOut, height) <==> InputMature(m', t.inputs[i].prevOut, height)
    {
      assert t.inputs[i].prevOut.IsZero() || t.inputs[i].prevOut in Spends(t);
    }
  }

  /** Whatever held of a transaction against the set before the block holds against the set its
      predecessors leave: existence, ownership, fee, maturity and token balance. */
  lemma {:induction false} ValidInItsPlace(rules: Rules, m: UtxoMap, txs: seq<Tx>, height: Uint64, n: nat)
    requires Snapshot(m, txs) && n < |txs|
    ensures var m' := ApplyTxs(m, txs[..n], height); var t := txs[n];
            && (SpendOk(t, m) <==> SpendOk(t, m'))
            && (TxMature(m, t, height) <==> TxMature(m', t, height))
            && (TokenRulesOk(rules, m, t) <==> TokenRulesOk(rules, m', t))
            && TxFee(m', t) == TxFee(m, t)
  {
    hide SpendOk, TxMature, TokensOk, Snapshot;
    SpendsPresent(m, txs, n);
    InputsSurvive(m, txs, height, n);
    var m' := ApplyTxs(m, txs[..n], height);
    SpendOkAgrees(m, m', txs[n]);
    MatureAgrees(m, m', txs[n], height);
    TokenSumsAgree(m, m', txs[n]);
    InSumAgrees(m, m', txs[n].inputs, ValueOf);
  }

  // ---------------------------------------------------------------- any order

  /** `other` lists the same transactions, the coinbase still first. */
  ghost predicate Rearranged(txs: seq<Tx>, other: seq<Tx>) {
    |txs| > 0 && multiset(txs) == multiset(other) && |other| == |txs| && other[0] == txs[0]
  }

  lemma {:induction false} RearrangedSame(txs: seq<Tx>, other: seq<Tx>)
    requires Rearranged(txs, other)
    ensures forall t :: t in txs <==> t in other
    ensures DistinctHashes(txs) ==> DistinctHashes(other)
  {
    MultisetElements(txs, other);
    assert forall t :: t in txs <==> t in Elements(txs);
    assert forall t :: t in other <==> t in Elements(other);
    if DistinctHashes(txs) {
      DistinctPermutes(txs, other);
      forall i, j | 0 <= i < j < |other|
        ensures TxHash(other[i]) != TxHash(other[j])
      {
        assert other[i] in txs;
        var a :| 0 <= a < |txs| && txs[a] == other[i];
        assert other[j] in txs;
        var b :| 0 <= b < |txs| && txs[b] == other[j];
      }
    }
  }

  lemma {:induction false} SnapshotRearranges(m: UtxoMap, txs: seq<Tx>, other: seq<Tx>)
    requires Snapshot(m, txs) && Rearranged(txs, other)
    ensures Snapshot(m, other)
  {
    assert DistinctHashes(txs);
    RearrangedSame(txs, other);
    forall i | 0 <= i < |other|
      ensures Spends(other[i]) <= m.Keys && Creates(other[i]) !! m.Keys
    {
      assert other[i] in txs;
      var a :| 0 <= a < |txs| && txs[a] == other[i];
    }
    forall i, j | 0 <= i < j < |other|
      ensures Spends(other[i]) !! Spends(other[j])
    {
      assert other[i] in txs;
      var a :| 0 <= a < |txs| && txs[a] == other[i];
      assert other[j] in txs;
      var b :| 0 <= b < |txs| && txs[b] == other[j];
      assert TxHash(txs[a]) != TxHash(txs[b]);
    }
  }

  lemma {:induction false} SameTotals(txs: seq<Tx>, other: seq<Tx>)
    requires forall t :: t in txs <==> t in other
    ensures AllSpends(txs) == AllSpends(other) && AllCreates(txs) == AllCreates(other)
  {
    AllSpendsIs(txs);
    AllSpendsIs(other);
    AllCreatesIs(txs);
    AllCreatesIs(other);
    forall op
      ensures op in AllSpends(txs) <==> op in AllSpends(other)
      ensures op in AllCreates(txs) <==> op in AllCreates(other)
    {
      assert op in AllSpends(txs) <==> exists t :: t in txs && op in Spends(t);
      assert op in AllSpends(other) <==> exists t :: t in other && op in Spends(t);
      assert op in AllCreates(txs) <==> exists t :: t in txs && op in Creates(t);
      assert op in AllCreates(other) <==> exists t :: t in other && op in Creates(t);
    }
  }

  lemma {:induction false} SameCreated(m: UtxoMap, txs: seq<Tx>, other: seq<Tx>, height: nat, op: Outpoint)
    requires Snapshot(m, txs) && Snapshot(m, other) && Rearranged(txs, other) && op in AllCreates(txs)
    ensures op in ApplyTxs(m, txs, height) && op in ApplyTxs(m, other, height)
    ensures ApplyTxs(m, other, height)[op] == ApplyTxs(m, txs, height)[op]
  {
    AllCreatesIs(txs);
    RearrangedSame(txs, other);
    var i :| 0 <= i < |txs| && op in Creates(txs[i]);
    assert txs[i] in other;
    var j :| 0 <= j < |other| && other[j] == txs[i];
    assert op == Outpoint(TxHash(txs[i]), op.index);
    CreatedIs(m, txs, height, i, op.index);
    CreatedIs(m, other, height, j, op.index);
    assert i == 0 <==> j == 0;
  }

  /** The order of a block's transactions does not change what the block does. */
  lemma {:induction false} OrderIsIrrelevant(m: UtxoMap, txs: seq<Tx>, other: seq<Tx>, height: nat)
    requires Snapshot(m, txs) && Rearranged(txs, other)
    ensures Snapshot(m, other)
    ensures ApplyTxs(m, other, height) == ApplyTxs(m, txs, height)
  {
    hide Snapshot, AllSpends, AllCreates, ApplyTxs, Rearranged, DistinctHashes;
    SnapshotRearranges(m, txs, other);
    RearrangedSame(txs, other);
    SameTotals(txs, other);
    AfterPrefix(m, txs, height);
    AfterPrefix(m, other, height);
    var a, b := ApplyTxs(m, txs, height), ApplyTxs(m, other, height);
    assert a.Keys == b.Keys;
    forall op | op in a
      ensures a[op] == b[op]
    {
      if op in AllCreates(txs) {
        SameCreated(m, txs, other, height, op);
      }
    }
  }

  /** So it is on every chain: an acceptable block may list its transactions in any order. */
  lemma {:induction false} BlockOrderIsIrrelevant(rules: Rules, g: Block, chain: seq<Block>, b: Block, other: seq<Tx>)
    requires TxHashSound() && ChainOk(rules, g, chain) && Acceptable(rules, chain, b) && Rearranged(b.txs, other)
    ensures ApplyTxs(Fold(chain).utxos, other, b.header.height) == ApplyBlock(Fold(chain).utxos, b)
    ensures forall n :: 1 <= n < |other| ==> SpendOk(other[n], ApplyTxs(Fold(chain).utxos, other[..n], b.header.height))
  {
    hide ChainOk, BlockOk, Tagged, SpendOk, Snapshot, KeysOk, DistinctHashes, Rearranged, Fold, TxHashSound;
    var m := Fold(chain).utxos;
    AcceptableFresh(rules, g, chain, b);
    OrderIsIrrelevant(m, b.txs, other, b.header.height);
    forall n | 1 <= n < |other|
      ensures SpendOk(other[n], ApplyTxs(m, other[..n], b.header.height))
    {
      StillSpendable(rules, m, b, other, n);
      ValidInItsPlace(rules, m, other, b.header.height, n);
    }
  }

  lemma {:induction false} StillSpendable(rules: Rules, m: UtxoMap, b: Block, other: seq<Tx>, n: nat)
    requires AllSpendOk(m, b.txs) && Snapshot(m, b.txs) && Snapshot(m, other) && Rearranged(b.txs, other) && 1 <= n < |other|
    ensures SpendOk(other[n], m)
  {
    hide SpendOk;
    RearrangedSame(b.txs, other);
    assert other[n] in b.txs;
    var i :| 0 <= i < |b.txs| && b.txs[i] == other[n];
    assert TxHash(other[0]) != TxHash(other[n]);
    assert i != 0;
  }

  // ---------------------------------------------------------------- the header fixes the transactions

  ghost predicate IsTxHash(h: Hash) {
    exists t: Tx :: TxHash(t) == h
  }

  lemma {:induction false} ValidHashesDistinct(b: Block)
    requires TxHashSound() && BlockOk(b)
    ensures DistinctHashes(b.txs)
  {
    forall i, j | 0 <= i < j < |b.txs|
      ensures TxHash(b.txs[i]) != TxHash(b.txs[j])
    {
      if i == 0 {
        assert SameFirst(b.txs[0], b.txs[j]) ==> HasZeroInput(b.txs[j]);
      } else {
        CanonicalAscends(b.txs, i, j);
      }
    }
  }

  /** Canonical order is what makes the merkle root binding: two structurally valid blocks with the
      same root list the same transaction hashes, although odd levels repeat their last node. */
  lemma {:induction false} RootFixesTxs(b: Block, c: Block)
    requires TxHashSound() && ConcatInjective() && LeavesApart(iset h: Hash | IsTxHash(h))
    requires BlockOk(b) && BlockOk(c) && b.header.merkleRoot == c.header.merkleRoot
    ensures TxHashes(b.txs) == TxHashes(c.txs)
  {
    ValidHashesDistinct(b);
    ValidHashesDistinct(c);
    var leaves := iset h: Hash | IsTxHash(h);
    var x, y := TxHashes(b.txs), TxHashes(c.txs);
    assert forall i :: 0 <= i < |x| ==> IsTxHash(x[i]);
    assert forall i :: 0 <= i < |y| ==> IsTxHash(y[i]);
    assert Root(x) == Root(y);
    RootDeterminesList(x, y, leaves);
  }
}
