/** Conservation, once for every quantity an output can carry: native value, the amount of one
    token, the stake of one key, being a sub-chain registration. A weight is any function of an
    output; applying a block moves its total by outputs minus inputs. */
module Weights {
  import opened Primitives
  import opened Types
  import opened Ledger

  type Weight = Output -> nat

  function AsOutput(u: Utxo): Output {
    Output(u.value, u.script, u.token)
  }

  function Lift(v: Weight): Utxo -> nat {
    u => v(AsOutput(u))
  }

  ghost function Total(m: UtxoMap, v: Weight): nat {
    MapSum(m, Lift(v))
  }

  /** The weight of the outputs that a list of inputs spends; absent outputs weigh nothing. */
  function InSum(m: UtxoMap, ins: seq<Input>, v: Weight): nat {
    if |ins| == 0 then 0 else
      var op := ins[|ins| - 1].prevOut;
      InSum(m, ins[..|ins| - 1], v) + (if op.IsZero() || op !in m then 0 else v(AsOutput(m[op])))
  }

  function OutSum(t: Tx, v: Weight): nat {
    Sum(t.outputs, v)
  }

  function BlockIn(m: UtxoMap, txs: seq<Tx>, v: Weight): nat {
    if |txs| == 0 then 0 else BlockIn(m, txs[..|txs| - 1], v) + InSum(m, txs[|txs| - 1].inputs, v)
  }

  function BlockOut(txs: seq<Tx>, v: Weight): nat {
    if |txs| == 0 then 0 else BlockOut(txs[..|txs| - 1], v) + OutSum(txs[|txs| - 1], v)
  }

  /** No outpoint is spent twice by one transaction. */
  ghost predicate DistinctSpends(ins: seq<Input>) {
    forall i, j :: 0 <= i < j < |ins| && !ins[i].prevOut.IsZero() ==> ins[i].prevOut != ins[j].prevOut
  }

  lemma {:induction false} InSumAgrees(m: UtxoMap, m': UtxoMap, ins: seq<Input>, v: Weight)
    requires forall op :: op in SpendsOf(ins) ==> op in m && op in m' && m[op] == m'[op]
    ensures InSum(m, ins, v) == InSum(m', ins, v)
  {
    if |ins| > 0 {
      var n := |ins| - 1;
      assert SpendsOf(ins[..n]) <= SpendsOf(ins);
      InSumAgrees(m, m', ins[..n], v);
      assert ins[n].prevOut.IsZero() || ins[n].prevOut in SpendsOf(ins);
    }
  }

  lemma {:induction false} SpendMoves(m: UtxoMap, ins: seq<Input>, v: Weight)
    requires DistinctSpends(ins) && SpendsOf(ins) <= m.Keys
    ensures Total(m - SpendsOf(ins), v) + InSum(m, ins, v) == Total(m, v)
  {
    if |ins| == 0 {
      assert m - SpendsOf(ins) == m;
    } else {
      var n := |ins| - 1;
      var op := ins[n].prevOut;
      assert forall i :: 0 <= i < n ==> ins[..n][i] == ins[i];
      assert SpendsOf(ins) == SpendsOf(ins[..n]) + (if op.IsZero() then {} else {op});
      SpendMoves(m, ins[..n], v);
      if op.IsZero() {
        assert m - SpendsOf(ins) == m - SpendsOf(ins[..n]);
      } else {
        assert m - SpendsOf(ins) == (m - SpendsOf(ins[..n])) - {op};
        MapSumRemove(m - SpendsOf(ins[..n]), op, Lift(v));
      }
    }
  }

  /** The map with the first `n` outputs of `t` added. */
  function WithOutputs(m: UtxoMap, t: Tx, n: nat, height: nat, coinbase: bool, lock: nat): UtxoMap
    requires n <= |t.outputs|
  {
    if n == 0 then m else
      WithOutputs(m, t, n - 1, height, coinbase, lock)[Outpoint(TxHash(t), n - 1) := NewUtxo(t, n - 1, height, coinbase, lock)]
  }

  function FirstOutputs(t: Tx, n: nat, height: nat, coinbase: bool, lock: nat): UtxoMap {
    map op | op in Creates(t) && op.index < n :: NewUtxo(t, op.index, height, coinbase, lock)
  }

  lemma FirstOutputsStep(t: Tx, n: nat, height: nat, coinbase: bool, lock: nat)
    requires n < |t.outputs|
    ensures FirstOutputs(t, n + 1, height, coinbase, lock) == FirstOutputs(t, n, height, coinbase, lock)[Outpoint(TxHash(t), n) := NewUtxo(t, n, height, coinbase, lock)]
  {
    hide NewUtxo;
    assert Outpoint(TxHash(t), n) in Creates(t);
  }

  lemma {:induction false} WithOutputsIs(m: UtxoMap, t: Tx, n: nat, height: nat, coinbase: bool, lock: nat)
    requires n <= |t.outputs|
    ensures WithOutputs(m, t, n, height, coinbase, lock) == m + FirstOutputs(t, n, height, coinbase, lock)
  {
    hide NewUtxo;
    if n == 0 {
      assert FirstOutputs(t, 0, height, coinbase, lock) == map[];
    } else {
      hide FirstOutputs;
      WithOutputsIs(m, t, n - 1, height, coinbase, lock);
      FirstOutputsStep(t, n - 1, height, coinbase, lock);
      MapUpdated(m, FirstOutputs(t, n - 1, height, coinbase, lock), Outpoint(TxHash(t), n - 1), NewUtxo(t, n - 1, height, coinbase, lock));
    }
  }

  lemma {:induction false} CreateMoves(m: UtxoMap, t: Tx, n: nat, height: nat, coinbase: bool, lock: nat, v: Weight)
    requires n <= |t.outputs| && Creates(t) !! m.Keys
    ensures Total(WithOutputs(m, t, n, height, coinbase, lock), v) == Total(m, v) + Sum(t.outputs[..n], v)
  {
    hide *;
    if n > 0 {
      CreateMoves(m, t, n - 1, height, coinbase, lock, v);
      NextIsNew(m, t, n - 1, height, coinbase, lock);
      OneMoreOutput(m, t, n, height, coinbase, lock, v);
      SumPrefix(t.outputs, v, n - 1);
    } else {
      assert t.outputs[..0] == [];
      NoOutputYet(m, t, height, coinbase, lock, v);
    }
  }

  lemma NoOutputYet(m: UtxoMap, t: Tx, height: nat, coinbase: bool, lock: nat, v: Weight)
    ensures WithOutputs(m, t, 0, height, coinbase, lock) == m && Sum([], v) == 0
  {
  }

  lemma OneMoreOutput(m: UtxoMap, t: Tx, n: nat, height: nat, coinbase: bool, lock: nat, v: Weight)
    requires 0 < n <= |t.outputs| && Outpoint(TxHash(t), n - 1) !in WithOutputs(m, t, n - 1, height, coinbase, lock)
    ensures Total(WithOutputs(m, t, n, height, coinbase, lock), v) == Total(WithOutputs(m, t, n - 1, height, coinbase, lock), v) + v(t.outputs[n - 1])
  {
    var u, before := NewUtxo(t, n - 1, height, coinbase, lock), WithOutputs(m, t, n - 1, height, coinbase, lock);
    assert WithOutputs(m, t, n, height, coinbase, lock) == before[Outpoint(TxHash(t), n - 1) := u];
    hide WithOutputs, MapSum;
    assert AsOutput(u) == t.outputs[n - 1];
    MapSumAdd(before, Outpoint(TxHash(t), n - 1), u, Lift(v));
  }

  lemma NextIsNew(m: UtxoMap, t: Tx, n: nat, height: nat, coinbase: bool, lock: nat)
    requires n < |t.outputs| && Creates(t) !! m.Keys
    ensures Outpoint(TxHash(t), n) !in WithOutputs(m, t, n, height, coinbase, lock)
  {
    WithOutputsIs(m, t, n, height, coinbase, lock);
    assert Outpoint(TxHash(t), n) in Creates(t);
  }

  /** One transaction moves the total by its outputs minus its inputs. */
  lemma {:induction false} TxMoves(m: UtxoMap, t: Tx, height: nat, coinbase: bool, v: Weight)
    requires DistinctSpends(t.inputs) && Spends(t) <= m.Keys && Creates(t) !! m.Keys
    ensures Total(ApplyTx(m, t, height, coinbase), v) + InSum(m, t.inputs, v) == Total(m, v) + OutSum(t, v)
  {
    hide Total, InSum, Sum, WithOutputs, ApplyTx, DistinctSpends;
    var lock := LockFor(m, t, height);
    SpendMoves(m, t.inputs, v);
    CreateMoves(m - Spends(t), t, |t.outputs|, height, coinbase, lock, v);
    ApplyTxCreates(m, t, height, coinbase);
    assert t.outputs[..|t.outputs|] == t.outputs;
  }

  lemma ApplyTxCreates(m: UtxoMap, t: Tx, height: nat, coinbase: bool)
    ensures ApplyTx(m, t, height, coinbase) == WithOutputs(m - Spends(t), t, |t.outputs|, height, coinbase, LockFor(m, t, height))
    ensures Spends(t) == SpendsOf(t.inputs)
  {
    hide WithOutputs, LockFor;
    WithOutputsIs(m - Spends(t), t, |t.outputs|, height, coinbase, LockFor(m, t, height));
  }

  /** A block moves the total by its outputs minus its inputs, both read in the pre-block set. */
  lemma {:induction false} BlockMoves(m: UtxoMap, txs: seq<Tx>, height: nat, v: Weight)
    requires Snapshot(m, txs)
    requires forall i :: 0 <= i < |txs| ==> DistinctSpends(txs[i].inputs)
    ensures Total(ApplyTxs(m, txs, height), v) + BlockIn(m, txs, v) == Total(m, v) + BlockOut(txs, v)
    decreases |txs|
  {
    if |txs| > 0 {
      hide ApplyTx, InSum, OutSum, Total, DistinctSpends;
      var n := |txs| - 1;
      SnapshotPrefix(m, txs, n);
      BlockMoves(m, txs[..n], height, v);
      InputsSurvive(m, txs, height, n);
      SpendsPresent(m, txs, n);
      hide Snapshot;
      var m' := ApplyTxs(m, txs[..n], height);
      assert Spends(txs[n]) == SpendsOf(txs[n].inputs);
      InSumAgrees(m, m', txs[n].inputs, v);
      TxMoves(m', txs[n], height, n == 0 && height > 0, v);
    }
  }
}
