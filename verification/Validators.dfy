/** The validator set against the ledger: the engine's set is the genesis set plus exactly the
    keys whose stake outputs reach the minimum. */
module Validators {
  import opened Primitives
  import opened Types
  import opened Ledger
  import opened Weights
  import opened BlockRules
  import opened StateRules
  import opened Replay
  import opened Economics
  import opened UtxoStore

  ghost predicate Staked(m: UtxoMap, key: Bytes, minStake: nat) {
    Total(m, StakeOf(key)) >= minStake
  }

  ghost predicate Agrees(validators: set<Bytes>, genesis: set<Bytes>, minStake: nat, m: UtxoMap) {
    forall key :: key in validators <==> key in genesis || Staked(m, key, minStake)
  }

  predicate StakesTo(o: Output, key: Bytes) {
    IsStakeScript(o.script) && o.script.data == key
  }

  /** The keys named by the stake outputs of some transactions, in order. */
  function KeysOfOutputs(outs: seq<Output>): seq<Bytes> {
    if |outs| == 0 then [] else
      KeysOfOutputs(outs[..|outs| - 1]) + (if IsStakeScript(outs[|outs| - 1].script) then [outs[|outs| - 1].script.data] else [])
  }

  function KeysOfTxs(txs: seq<Tx>): seq<Bytes> {
    if |txs| == 0 then [] else KeysOfTxs(txs[..|txs| - 1]) + KeysOfOutputs(txs[|txs| - 1].outputs)
  }

  function KeysOfUtxos(us: seq<Utxo>): seq<Bytes> {
    if |us| == 0 then [] else
      KeysOfUtxos(us[..|us| - 1]) + (if IsStakeScript(us[|us| - 1].script) then [us[|us| - 1].script.data] else [])
  }

  /** Coinbases are not used to stake (their outputs escape the exact-amount rule). */
  predicate NoCoinbaseStake(b: Block) {
    |b.txs| > 0 && forall i :: 0 <= i < |b.txs[0].outputs| ==> b.txs[0].outputs[i].script.kind != Stake
  }

  lemma {:induction false} KeysOfUtxosIs(us: seq<Utxo>, key: Bytes)
    ensures key in KeysOfUtxos(us) <==> exists u :: u in us && IsStakeScript(u.script) && u.script.data == key
  {
    if |us| > 0 {
      var n := |us| - 1;
      KeysOfUtxosIs(us[..n], key);
      assert us == us[..n] + [us[n]];
    }
  }

  lemma {:induction false} KeysOfOutputsIs(outs: seq<Output>, key: Bytes)
    ensures key in KeysOfOutputs(outs) <==> exists i :: 0 <= i < |outs| && StakesTo(outs[i], key)
    ensures key !in KeysOfOutputs(outs) ==> Sum(outs, StakeOf(key)) == 0
  {
    if |outs| > 0 {
      var n := |outs| - 1;
      KeysOfOutputsIs(outs[..n], key);
      assert forall i :: 0 <= i < n ==> outs[..n][i] == outs[i];
      if key in KeysOfOutputs(outs[..n]) {
        var i :| 0 <= i < n && StakesTo(outs[..n][i], key);
        assert StakesTo(outs[i], key);
      }
    }
  }

  lemma {:induction false} KeysOfTxsIs(txs: seq<Tx>, key: Bytes)
    ensures key in KeysOfTxs(txs) <==> exists i :: 0 <= i < |txs| && key in KeysOfOutputs(txs[i].outputs)
    ensures key !in KeysOfTxs(txs) ==> BlockOut(txs, StakeOf(key)) == 0
  {
    if |txs| > 0 {
      var n := |txs| - 1;
      KeysOfTxsIs(txs[..n], key);
      KeysOfOutputsIs(txs[n].outputs, key);
      assert forall i :: 0 <= i < n ==> txs[..n][i] == txs[i];
      if key in KeysOfTxs(txs[..n]) {
        var i :| 0 <= i < n && key in KeysOfOutputs(txs[..n][i].outputs);
        assert key in KeysOfOutputs(txs[i].outputs);
      }
    }
  }

  lemma {:induction false} NoStakeSpent(m: UtxoMap, ins: seq<Input>, key: Bytes)
    requires forall i :: 0 <= i < |ins| && !ins[i].prevOut.IsZero() && ins[i].prevOut in m ==> !(IsStakeScript(m[ins[i].prevOut].script) && m[ins[i].prevOut].script.data == key)
    ensures InSum(m, ins, StakeOf(key)) == 0
  {
    if |ins| > 0 {
      NoStakeSpent(m, ins[..|ins| - 1], key);
    }
  }

  /** A block whose undo record names no stake of `key` takes no stake of `key`. */
  lemma {:induction false} UnspentKeyKeepsStake(m: UtxoMap, txs: seq<Tx>, height: nat, key: Bytes)
    requires KeysOk(m) && Snapshot(m, txs)
    requires key !in KeysOfUtxos(SpentByTxs(m, txs, height))
    ensures BlockIn(m, txs, StakeOf(key)) == 0
  {
    SpentAreOriginal(m, txs, height);
    KeysOfUtxosIs(SpentByTxs(m, txs, height), key);
    NoStakeSpentInBlock(m, txs, AllSpends(txs), SpentByTxs(m, txs, height), key);
  }

  lemma {:induction false} NoStakeSpentInBlock(m: UtxoMap, txs: seq<Tx>, all: set<Outpoint>, spent: seq<Utxo>, key: Bytes)
    requires Records(spent, m, all) && AllSpends(txs) <= all
    requires forall u :: u in spent ==> !(IsStakeScript(u.script) && u.script.data == key)
    ensures BlockIn(m, txs, StakeOf(key)) == 0
    decreases |txs|
  {
    if |txs| > 0 {
      var n := |txs| - 1;
      NoStakeSpentInBlock(m, txs[..n], all, spent, key);
      forall i | 0 <= i < |txs[n].inputs| && !txs[n].inputs[i].prevOut.IsZero()
        ensures txs[n].inputs[i].prevOut in all
      {
        assert txs[n].inputs[i].prevOut in Spends(txs[n]);
      }
      NoStakeSpent(m, txs[n].inputs, key);
    }
  }

  lemma {:induction false} OneWeighs(m: UtxoMap, op: Outpoint, v: Weight)
    requires op in m
    ensures Total(m, v) >= v(AsOutput(m[op]))
  {
    MapSumRemove(m, op, Lift(v));
  }

  /** Every stake output holds exactly the required stake. */
  ghost predicate StakesFull(m: UtxoMap, amount: nat) {
    forall op :: op in m && m[op].script.kind == Stake ==> m[op].value == amount
  }

  lemma {:induction false} FullAfterTxs(m: UtxoMap, txs: seq<Tx>, height: nat, amount: nat)
    requires StakesFull(m, amount)
    requires forall t, i :: t in txs && 0 <= i < |t.outputs| && t.outputs[i].script.kind == Stake ==> t.outputs[i].value == amount
    ensures StakesFull(ApplyTxs(m, txs, height), amount)
    decreases |txs|
  {
    hide StakesFull, ApplyTx;
    if |txs| > 0 {
      var n := |txs| - 1;
      assert forall t :: t in txs[..n] ==> t in txs;
      FullAfterTxs(m, txs[..n], height, amount);
      assert txs[n] in txs;
      FullAfterTx(ApplyTxs(m, txs[..n], height), txs[n], height, n == 0 && height > 0, amount);
    }
  }

  lemma FullAfterTx(m: UtxoMap, t: Tx, height: nat, coinbase: bool, amount: nat)
    requires StakesFull(m, amount)
    requires forall i :: 0 <= i < |t.outputs| && t.outputs[i].script.kind == Stake ==> t.outputs[i].value == amount
    ensures StakesFull(ApplyTx(m, t, height, coinbase), amount)
  {
    hide LockFor, Spends;
  }

  ghost predicate ExactOutputs(rules: Rules, txs: seq<Tx>) {
    forall t, i :: t in txs && 0 <= i < |t.outputs| && t.outputs[i].script.kind == Stake ==> t.outputs[i].value == rules.validatorStake
  }

  lemma ValidStakesExact(rules: Rules, b: Block)
    requires |b.txs| > 0 && AllStakesExact(rules, b.txs) && NoCoinbaseStake(b) && rules.validatorStake > 0
    ensures ExactOutputs(rules, b.txs)
  {
    forall t, i | t in b.txs && 0 <= i < |t.outputs| && t.outputs[i].script.kind == Stake
      ensures t.outputs[i].value == rules.validatorStake
    {
      var k :| 0 <= k < |b.txs| && b.txs[k] == t;
      if k > 0 {
        assert StakeExact(rules, b.txs[k]);
      }
    }
  }

  /** On a chain without coinbase stakes every stake output is exactly the required stake. */
  lemma {:induction false} ChainStakesFull(rules: Rules, g: Block, chain: seq<Block>)
    requires ChainOk(rules, g, chain) && rules.validatorStake > 0
    requires forall b :: b in chain ==> NoCoinbaseStake(b)
    ensures StakesFull(Fold(chain).utxos, rules.validatorStake)
    decreases |chain|
  {
    hide ChainOk, CanExtend, Acceptable, BlockOk;
    LastBlock(rules, g, chain);
    var n := |chain| - 1;
    if n == 0 {
      assert g in chain;
      GenesisFold(g);
      GenesisExact(rules, g);
      FullAfterTxs(map[], g.txs, 0, rules.validatorStake);
    } else {
      assert forall b :: b in chain[..n] ==> b in chain;
      ChainStakesFull(rules, g, chain[..n]);
      assert chain[n] in chain;
      ValidStakesExact(rules, chain[n]);
      FullAfterTxs(Fold(chain[..n]).utxos, chain[n].txs, chain[n].header.height, rules.validatorStake);
    }
  }

  lemma GenesisExact(rules: Rules, g: Block)
    requires GenesisOk(g)
    ensures ExactOutputs(rules, g.txs)
  {
  }

  lemma {:induction false} StakeSurvives(m: UtxoMap, txs: seq<Tx>, height: nat, key: Bytes, amount: nat)
    requires Snapshot(m, txs) && key in KeysOfTxs(txs) && StakesFull(ApplyTxs(m, txs, height), amount)
    ensures Staked(ApplyTxs(m, txs, height), key, amount)
    decreases |txs|
  {
    var n := |txs| - 1;
    var m' := ApplyTxs(m, txs, height);
    KeysOfTxsIs(txs, key);
    var i :| 0 <= i < |txs| && key in KeysOfOutputs(txs[i].outputs);
    KeysOfOutputsIs(txs[i].outputs, key);
    var k :| 0 <= k < |txs[i].outputs| && StakesTo(txs[i].outputs[k], key);
    var op := Outpoint(TxHash(txs[i]), k);
    CreatedIs(m, txs, height, i, k);
    OneWeighs(m', op, StakeOf(key));
  }

  /** An output created by any transaction of a snapshot-valid block is in the resulting set. */
  lemma {:induction false} CreatedIs(m: UtxoMap, txs: seq<Tx>, height: nat, i: nat, k: nat)
    requires Snapshot(m, txs) && i < |txs| && k < |txs[i].outputs|
    ensures var op := Outpoint(TxHash(txs[i]), k); var m' := ApplyTxs(m, txs, height);
            op in m' && m'[op] == NewUtxo(txs[i], k, height, i == 0 && height > 0, LockFor(m, txs[i], height))
    decreases |txs|
  {
    hide *;
    var n := |txs| - 1;
    var op := Outpoint(TxHash(txs[i]), k);
    IsCreated(txs[i], k);
    ApplyLast(m, txs, height);
    var m' := ApplyTxs(m, txs[..n], height);
    if i < n {
      SnapshotPrefix(m, txs, n);
      CreatedIs(m, txs[..n], height, i, k);
      CreatedApart(m, txs, i, n, op);
      StaysPut(m', txs[n], height, n == 0 && height > 0, op);
    } else {
      InputsSurvive(m, txs, height, n);
      MadeNow(m', txs[n], height, n == 0 && height > 0, k);
      SameLock(m, m', txs[n], height);
    }
  }

  lemma IsCreated(t: Tx, k: nat)
    requires k < |t.outputs|
    ensures Outpoint(TxHash(t), k) in Creates(t)
  {
  }

  lemma ApplyLast(m: UtxoMap, txs: seq<Tx>, height: nat)
    requires |txs| > 0
    ensures var n := |txs| - 1; ApplyTxs(m, txs, height) == ApplyTx(ApplyTxs(m, txs[..n], height), txs[n], height, n == 0 && height > 0)
  {
  }

  lemma StaysPut(m: UtxoMap, t: Tx, height: nat, coinbase: bool, op: Outpoint)
    requires op in m && op !in Spends(t) && op !in Creates(t)
    ensures op in ApplyTx(m, t, height, coinbase) && ApplyTx(m, t, height, coinbase)[op] == m[op]
  {
    hide Spends, Creates;
    AfterOne(m, t, height, coinbase);
  }

  lemma MadeNow(m: UtxoMap, t: Tx, height: nat, coinbase: bool, k: nat)
    requires k < |t.outputs|
    ensures var op := Outpoint(TxHash(t), k); op in ApplyTx(m, t, height, coinbase) && ApplyTx(m, t, height, coinbase)[op] == NewUtxo(t, k, height, coinbase, LockFor(m, t, height))
  {
    assert Outpoint(TxHash(t), k) in Creates(t);
  }

  lemma SameLock(m: UtxoMap, m': UtxoMap, t: Tx, height: nat)
    requires SpendsStake(m, t) <==> SpendsStake(m', t)
    ensures LockFor(m, t, height) == LockFor(m', t, height)
  {
  }

  lemma CreatedApart(m: UtxoMap, txs: seq<Tx>, i: nat, n: nat, op: Outpoint)
    requires Snapshot(m, txs) && i < n < |txs| && op in Creates(txs[i])
    ensures op !in Spends(txs[n]) && op !in Creates(txs[n])
  {
  }

  /** What the stake and unstake handlers make of the set when `created` keys are staked and then
      the `spent` keys that fell below the minimum are dropped. */
  ghost function AfterHandlers(validators: set<Bytes>, genesis: set<Bytes>, minStake: nat, m: UtxoMap, created: seq<Bytes>, spent: seq<Bytes>): set<Bytes> {
    Dropped(validators + Elements(created), genesis, minStake, m, spent)
  }

  /** The set without the listed keys that are neither genesis nor staked in `m`. */
  ghost function Dropped(validators: set<Bytes>, genesis: set<Bytes>, minStake: nat, m: UtxoMap, keys: seq<Bytes>): set<Bytes> {
    set key | key in validators && !(key in keys && key !in genesis && !Staked(m, key, minStake))
  }

  /** Connecting a block keeps the set in step with the ledger. */
  lemma {:induction false} ConnectKeepsAgreement(rules: Rules, g: Block, chain: seq<Block>, b: Block, validators: set<Bytes>, genesis: set<Bytes>, spent: seq<Utxo>)
    requires TxHashSound() && ChainOk(rules, g, chain) && CanExtend(rules, chain, b) && rules.validatorStake > 0
    requires forall c :: c in chain + [b] ==> NoCoinbaseStake(c)
    requires spent == SpentByTxs(Fold(chain).utxos, b.txs, b.header.height)
    requires Agrees(validators, genesis, rules.validatorStake, Fold(chain).utxos)
    ensures Agrees(AfterHandlers(validators, genesis, rules.validatorStake, Fold(chain + [b]).utxos, KeysOfTxs(b.txs), KeysOfUtxos(spent)),
                   genesis, rules.validatorStake, Fold(chain + [b]).utxos)
  {
    hide ChainOk, CanExtend, Acceptable, BlockOk, Snapshot, KeysOk, StakesFull;
    var m, m' := Fold(chain).utxos, Fold(chain + [b]).utxos;
    var after := AfterHandlers(validators, genesis, rules.validatorStake, m', KeysOfTxs(b.txs), KeysOfUtxos(spent));
    NextBlockFresh(rules, g, chain, b);
    FoldStep(chain, b);
    ChainExtends(rules, g, chain, b);
    ChainStakesFull(rules, g, chain + [b]);
    forall key
      ensures key in after <==> key in genesis || Staked(m', key, rules.validatorStake)
    {
      WeightStep(rules, g, chain, b, StakeOf(key));
      if key in KeysOfTxs(b.txs) {
        StakeSurvives(m, b.txs, b.header.height, key, rules.validatorStake);
      } else {
        KeysOfTxsIs(b.txs, key);
        if key !in KeysOfUtxos(spent) {
          UnspentKeyKeepsStake(m, b.txs, b.header.height, key);
        }
      }
    }
  }

  lemma SpentStakeFull(m: UtxoMap, spent: seq<Utxo>, txs: seq<Tx>, u: Utxo, key: Bytes, amount: nat)
    requires Records(spent, m, AllSpends(txs)) && StakesFull(m, amount) && u in spent && IsStakeScript(u.script) && u.script.data == key
    ensures Staked(m, key, amount)
  {
    hide Total, AllSpends;
    OneWeighs(m, u.outpoint, StakeOf(key));
  }

  /** Reverting a block keeps the set in step too: the keys it staked are dropped unless staked
      elsewhere, the keys whose stake it spent come back. */
  lemma {:induction false} RevertKeepsAgreement(rules: Rules, g: Block, chain: seq<Block>, b: Block, validators: set<Bytes>, genesis: set<Bytes>, spent: seq<Utxo>)
    requires TxHashSound() && ChainOk(rules, g, chain) && CanExtend(rules, chain, b) && rules.validatorStake > 0
    requires forall c :: c in chain + [b] ==> NoCoinbaseStake(c)
    requires spent == SpentByTxs(Fold(chain).utxos, b.txs, b.header.height)
    requires Agrees(validators, genesis, rules.validatorStake, Fold(chain + [b]).utxos)
    ensures Agrees(Dropped(validators, genesis, rules.validatorStake, Fold(chain).utxos, KeysOfTxs(b.txs)) + Elements(KeysOfUtxos(spent)),
                   genesis, rules.validatorStake, Fold(chain).utxos)
  {
    hide ChainOk, CanExtend, Acceptable, BlockOk, Snapshot, KeysOk, Total, BlockIn, BlockOut, SpentByTxs, KeysOfTxs, KeysOfUtxos, StakeOf, Fold, Records, StakesFull;
    var m, m' := Fold(chain).utxos, Fold(chain + [b]).utxos;
    var after := Dropped(validators, genesis, rules.validatorStake, m, KeysOfTxs(b.txs)) + Elements(KeysOfUtxos(spent));
    NextBlockFresh(rules, g, chain, b);
    assert forall c :: c in chain ==> c in chain + [b];
    ChainStakesFull(rules, g, chain);
    SpentAreOriginal(m, b.txs, b.header.height);
    forall key
      ensures key in after <==> key in genesis || Staked(m, key, rules.validatorStake)
    {
      WeightStep(rules, g, chain, b, StakeOf(key));
      KeysOfUtxosIs(spent, key);
      if key in KeysOfUtxos(spent) {
        var u :| u in spent && IsStakeScript(u.script) && u.script.data == key;
        SpentStakeFull(m, spent, b.txs, u, key, rules.validatorStake);
      } else {
        UnspentKeyKeepsStake(m, b.txs, b.header.height, key);
        KeysOfTxsIs(b.txs, key);
      }
    }
  }

  // ---------------------------------------------------------------- across a rebuild

  /** The stakes that block i of a chain takes back. */
  ghost function SpentKeys(target: seq<Block>, i: nat): seq<Bytes>
    requires i < |target|
  {
    KeysOfUtxos(SpentByTxs(Fold(target[..i]).utxos, target[i].txs, target[i].header.height))
  }

  /** What the handlers make of a set when only the blocks n to h - 1 of a chain run them. */
  ghost function SetAfter(validators: set<Bytes>, genesis: set<Bytes>, minStake: nat, target: seq<Block>, n: nat, h: nat): set<Bytes>
    requires h <= |target|
    decreases h
  {
    if h <= n then validators else
      AfterHandlers(SetAfter(validators, genesis, minStake, target, n, h - 1), genesis, minStake, Fold(target[..h]).utxos,
                    KeysOfTxs(target[h - 1].txs), SpentKeys(target, h - 1))
  }

  /** One of the blocks n to h - 1 stakes for `key`. */
  ghost predicate StakedBetween(target: seq<Block>, n: nat, h: nat, key: Bytes)
    requires h <= |target|
  {
    exists j :: n <= j < h && key in KeysOfTxs(target[j].txs)
  }

  ghost predicate StakedAt(target: seq<Block>, h: nat, key: Bytes, minStake: nat)
    requires h <= |target|
  {
    Staked(Fold(target[..h]).utxos, key, minStake)
  }

  /** One block, one key that is not a genesis key: what its stakes do to the ledger and to the set. */
  lemma {:induction false} KeyStep(rules: Rules, g: Block, chain: seq<Block>, b: Block, validators: set<Bytes>, genesis: set<Bytes>, key: Bytes)
    requires TxHashSound() && ChainOk(rules, g, chain) && CanExtend(rules, chain, b) && rules.validatorStake > 0 && key !in genesis
    requires forall c :: c in chain + [b] ==> NoCoinbaseStake(c)
    ensures var spent := KeysOfUtxos(SpentByTxs(Fold(chain).utxos, b.txs, b.header.height));
            var m, m' := Fold(chain).utxos, Fold(chain + [b]).utxos;
            var min := rules.validatorStake;
            var after := AfterHandlers(validators, genesis, min, m', KeysOfTxs(b.txs), spent);
            && (key in KeysOfTxs(b.txs) ==> Staked(m', key, min) && key in after)
            && (key !in KeysOfTxs(b.txs) && key in spent ==> Staked(m, key, min) && (key in after <==> key in validators && Staked(m', key, min)))
            && (key !in KeysOfTxs(b.txs) && key !in spent ==> (Staked(m', key, min) <==> Staked(m, key, min)) && (key in after <==> key in validators))
            && (key !in KeysOfTxs(b.txs) && Staked(m', key, min) ==> Staked(m, key, min))
  {
    hide ChainOk, CanExtend, Acceptable, BlockOk, Snapshot, KeysOk, Total, BlockIn, BlockOut, SpentByTxs, KeysOfTxs, KeysOfUtxos, StakeOf, Fold, Records, StakesFull;
    var m, m' := Fold(chain).utxos, Fold(chain + [b]).utxos;
    var spent := SpentByTxs(m, b.txs, b.header.height);
    NextBlockFresh(rules, g, chain, b);
    FoldStep(chain, b);
    ChainExtends(rules, g, chain, b);
    assert forall c :: c in chain ==> c in chain + [b];
    ChainStakesFull(rules, g, chain);
    ChainStakesFull(rules, g, chain + [b]);
    SpentAreOriginal(m, b.txs, b.header.height);
    WeightStep(rules, g, chain, b, StakeOf(key));
    KeysOfUtxosIs(spent, key);
    if key in KeysOfUtxos(spent) {
      var u :| u in spent && IsStakeScript(u.script) && u.script.data == key;
      SpentStakeFull(m, spent, b.txs, u, key, rules.validatorStake);
    } else {
      UnspentKeyKeepsStake(m, b.txs, b.header.height, key);
    }
    if key in KeysOfTxs(b.txs) {
      AdvanceUtxos(chain, b);
      StakeSurvives(m, b.txs, b.header.height, key, rules.validatorStake);
    } else {
      KeysOfTxsIs(b.txs, key);
    }
  }

  lemma AdvanceUtxos(chain: seq<Block>, b: Block)
    ensures Fold(chain + [b]).utxos == ApplyTxs(Fold(chain).utxos, b.txs, b.header.height)
  {
    FoldStep(chain, b);
  }

  /** Where a key stands after the blocks n to h - 1, from where it stood before: a key they stake is in
      the set exactly when it has its stake; any other stays as it was, unless its stake is spent. */
  lemma {:induction false} KeyAfter(rules: Rules, g: Block, target: seq<Block>, n: nat, h: nat, validators: set<Bytes>, genesis: set<Bytes>, key: Bytes)
    requires TxHashSound() && ChainOk(rules, g, target) && rules.validatorStake > 0 && key !in genesis
    requires 0 < n <= h <= |target| && forall c :: c in target ==> NoCoinbaseStake(c)
    ensures var after := SetAfter(validators, genesis, rules.validatorStake, target, n, h);
            var here, there := StakedAt(target, h, key, rules.validatorStake), StakedAt(target, n, key, rules.validatorStake);
            if StakedBetween(target, n, h, key) then key in after <==> here
            else (here ==> there) && (key in after <==> key in validators && (there ==> here))
    decreases h
  {
    hide *;
    if h > n {
      KeyAfter(rules, g, target, n, h - 1, validators, genesis, key);
      var chain, b := target[..h - 1], target[h - 1];
      BelowTop(rules, g, target, h);
      AfterStep(validators, genesis, rules.validatorStake, target, n, h, key);
      KeyStep(rules, g, chain, b, SetAfter(validators, genesis, rules.validatorStake, target, n, h - 1), genesis, key);
    } else {
      AfterNone(validators, genesis, rules.validatorStake, target, n, key);
    }
  }

  lemma BelowTop(rules: Rules, g: Block, target: seq<Block>, h: nat)
    requires ChainOk(rules, g, target) && 1 < h <= |target|
    ensures target[..h - 1] + [target[h - 1]] == target[..h]
    ensures ChainOk(rules, g, target[..h - 1]) && CanExtend(rules, target[..h - 1], target[h - 1])
    ensures forall c :: c in target[..h] ==> c in target
  {
    hide *;
    ChainPrefix(rules, g, target, h);
    LastBlock(rules, g, target[..h]);
    assert target[..h][..h - 1] == target[..h - 1];
  }

  lemma AfterStep(validators: set<Bytes>, genesis: set<Bytes>, minStake: nat, target: seq<Block>, n: nat, h: nat, key: Bytes)
    requires n < h <= |target|
    ensures var chain, b := target[..h - 1], target[h - 1];
            && SetAfter(validators, genesis, minStake, target, n, h) ==
               AfterHandlers(SetAfter(validators, genesis, minStake, target, n, h - 1), genesis, minStake, Fold(chain + [b]).utxos, KeysOfTxs(b.txs),
                             KeysOfUtxos(SpentByTxs(Fold(chain).utxos, b.txs, b.header.height)))
            && (StakedBetween(target, n, h, key) <==> StakedBetween(target, n, h - 1, key) || key in KeysOfTxs(b.txs))
            && (StakedAt(target, h, key, minStake) <==> Staked(Fold(chain + [b]).utxos, key, minStake))
            && (StakedAt(target, h - 1, key, minStake) <==> Staked(Fold(chain).utxos, key, minStake))
  {
    hide Fold, KeysOfTxs, KeysOfUtxos, SpentByTxs, AfterHandlers, Staked;
    var chain, b := target[..h - 1], target[h - 1];
    assert target[..h] == chain + [b];
    if key in KeysOfTxs(b.txs) {
      assert StakedBetween(target, n, h, key);
    }
  }

  lemma AfterNone(validators: set<Bytes>, genesis: set<Bytes>, minStake: nat, target: seq<Block>, n: nat, key: Bytes)
    requires n <= |target|
    ensures SetAfter(validators, genesis, minStake, target, n, n) == validators && !StakedBetween(target, n, n, key)
  {
  }

  /** Every key that the blocks from n on do not stake had its stake, where the rebuild starts, between
      the fork and the target: if it has it at the target, and only if it had it at the fork. */
  ghost predicate StakesBetween(genesis: set<Bytes>, minStake: nat, start: UtxoMap, target: seq<Block>, n: nat)
    requires n <= |target|
  {
    forall key :: key !in genesis && !StakedBetween(target, n, |target|, key) ==>
      && (StakedAt(target, |target|, key, minStake) ==> Staked(start, key, minStake))
      && (Staked(start, key, minStake) ==> StakedAt(target, n, key, minStake))
  }

  lemma {:induction false} GenesisStays(validators: set<Bytes>, genesis: set<Bytes>, minStake: nat, target: seq<Block>, n: nat, h: nat)
    requires genesis <= validators && h <= |target|
    ensures genesis <= SetAfter(validators, genesis, minStake, target, n, h)
    decreases h
  {
    hide Fold, KeysOfTxs, SpentKeys;
    if h > n {
      GenesisStays(validators, genesis, minStake, target, n, h - 1);
    }
  }

  /** Running the handlers of the new branch only, on a set that was in step with another ledger, brings
      it in step with the target exactly when that ledger's stakes lie between fork and target. */
  lemma {:induction false} RebuildAgreesExactlyWhen(rules: Rules, g: Block, target: seq<Block>, n: nat, validators: set<Bytes>, genesis: set<Bytes>, start: UtxoMap)
    requires TxHashSound() && ChainOk(rules, g, target) && rules.validatorStake > 0
    requires 0 < n <= |target| && forall c :: c in target ==> NoCoinbaseStake(c)
    requires Agrees(validators, genesis, rules.validatorStake, start)
    ensures Agrees(SetAfter(validators, genesis, rules.validatorStake, target, n, |target|), genesis, rules.validatorStake, Fold(target).utxos) <==>
            StakesBetween(genesis, rules.validatorStake, start, target, n)
  {
    hide ChainOk, NoCoinbaseStake, SetAfter, Fold, Staked;
    var after := SetAfter(validators, genesis, rules.validatorStake, target, n, |target|);
    GenesisStays(validators, genesis, rules.validatorStake, target, n, |target|);
    assert target[..|target|] == target;
    forall key | key !in genesis
      ensures (key in after <==> Staked(Fold(target).utxos, key, rules.validatorStake)) <==>
              (!StakedBetween(target, n, |target|, key) ==>
                 && (StakedAt(target, |target|, key, rules.validatorStake) ==> Staked(start, key, rules.validatorStake))
                 && (Staked(start, key, rules.validatorStake) ==> StakedAt(target, n, key, rules.validatorStake)))
    {
      KeyAfter(rules, g, target, n, |target|, validators, genesis, key);
    }
  }

  /** The two ways to disagree. A key that had its stake where the rebuild started, but not at the fork,
      stays in the set for good... */
  lemma LeftoverStays(rules: Rules, g: Block, target: seq<Block>, n: nat, validators: set<Bytes>, genesis: set<Bytes>, start: UtxoMap, key: Bytes)
    requires TxHashSound() && ChainOk(rules, g, target) && rules.validatorStake > 0
    requires 0 < n <= |target| && forall c :: c in target ==> NoCoinbaseStake(c)
    requires Agrees(validators, genesis, rules.validatorStake, start) && key !in genesis && !StakedBetween(target, n, |target|, key)
    requires Staked(start, key, rules.validatorStake) && !StakedAt(target, n, key, rules.validatorStake)
    ensures key in SetAfter(validators, genesis, rules.validatorStake, target, n, |target|) && !StakedAt(target, |target|, key, rules.validatorStake)
  {
    hide ChainOk, NoCoinbaseStake, SetAfter, StakedAt, Staked;
    KeyAfter(rules, g, target, n, |target|, validators, genesis, key);
  }

  /** ... and one that had lost its stake there, but has it at the target, is missing from it. */
  lemma WithdrawnStaysOut(rules: Rules, g: Block, target: seq<Block>, n: nat, validators: set<Bytes>, genesis: set<Bytes>, start: UtxoMap, key: Bytes)
    requires TxHashSound() && ChainOk(rules, g, target) && rules.validatorStake > 0
    requires 0 < n <= |target| && forall c :: c in target ==> NoCoinbaseStake(c)
    requires Agrees(validators, genesis, rules.validatorStake, start) && key !in genesis && !StakedBetween(target, n, |target|, key)
    requires !Staked(start, key, rules.validatorStake) && StakedAt(target, |target|, key, rules.validatorStake)
    ensures key !in SetAfter(validators, genesis, rules.validatorStake, target, n, |target|)
  {
    hide ChainOk, NoCoinbaseStake, SetAfter, StakedAt, Staked;
    KeyAfter(rules, g, target, n, |target|, validators, genesis, key);
  }
}
