/** When a node takes what it is offered: a transaction into its pool, a block onto its chain. */
module Acceptance {
  import opened Primitives
  import opened Types
  import opened Ledger
  import opened Weights
  import opened TxRules
  import opened Tokens
  import opened BlockRules
  import opened StateRules
  import opened Replay
  import opened Storage
  import opened UtxoStore
  import opened ChainSpec
  import opened Poa
  import opened Signing
  import opened Branches
  import opened Validators
  import opened Staffing
  import opened History
  import opened Consensus
  import opened Chain
  import opened Mining
  import Mempool

  // ---------------------------------------------------------------- the pool

  /** A pool as the node sets it up for a chain (internal/node/node.go). */
  predicate Aligned(p: Mempool.Policy, rules: Rules) {
    && p.maturity == 20 && p.checkTokens && p.allowMinting == rules.allowMinting && p.mintFee == 50_000_000_000_000
    && p.stakeAmount == rules.validatorStake
  }

  ghost predicate RipeInputs(chain: seq<Block>, t: Tx, height: nat) {
    forall j: nat, k: nat, n: nat :: j < |t.inputs| && Made(chain, k, n, t.inputs[j].prevOut) ==> Ripe(chain, k, n, height)
  }

  lemma {:induction false} PoolMature(rules: Rules, g: Block, chain: seq<Block>, t: Tx, height: Uint64)
    requires TxHashSound() && ChainOk(rules, g, chain) && |chain| <= height + 1
    requires forall j :: 0 <= j < |t.inputs| ==> t.inputs[j].prevOut != Outpoint(0, 0) && t.inputs[j].prevOut in Fold(chain).utxos
    ensures Mempool.InputsMature(Fold(chain).utxos, t, height, 20) <==> RipeInputs(chain, t, height)
  {
    hide ChainOk, TxHashSound, Fold, Ripe, Unstakes;
    var m := Fold(chain).utxos;
    forall j: nat, k: nat, n: nat | j < |t.inputs| && Made(chain, k, n, t.inputs[j].prevOut)
      ensures Mempool.OutputMature(m, t.inputs[j].prevOut, height, 20) <==> Ripe(chain, k, n, height)
    {
      MatureIsRipe(rules, g, chain, k, n, t.inputs[j].prevOut, height);
    }
    if RipeInputs(chain, t, height) {
      forall j | 0 <= j < |t.inputs|
        ensures Mempool.OutputMature(m, t.inputs[j].prevOut, height, 20)
      {
        UnspentExactlyWhen(rules, g, chain, t.inputs[j].prevOut);
        var k: nat, n: nat :| Made(chain, k, n, t.inputs[j].prevOut);
        assert Ripe(chain, k, n, height);
      }
    }
    if Mempool.InputsMature(m, t, height, 20) {
      forall j: nat, k: nat, n: nat | j < |t.inputs| && Made(chain, k, n, t.inputs[j].prevOut)
        ensures Ripe(chain, k, n, height)
      {
        assert Mempool.OutputMature(m, t.inputs[j].prevOut, height, 20);
      }
    }
  }

  predicate StakesPriced(rules: Rules, t: Tx) {
    rules.validatorStake > 0 ==> forall j :: 0 <= j < |t.outputs| && t.outputs[j].script.kind == Stake ==> t.outputs[j].value == rules.validatorStake
  }

  /** The pool takes what the next block may hold, except that it reads maturity at the height of the tip: what
      becomes spendable with the very next block it refuses. */
  lemma {:induction false} AdmittedExactlyWhen(rules: Rules, g: Block, chain: seq<Block>, p: Mempool.Policy, t: Tx)
    requires TxHashSound() && ChainOk(rules, g, chain) && 0 < |chain| <= MAX_U64 && Aligned(p, rules)
    requires forall j :: 0 <= j < |t.inputs| ==> t.inputs[j].prevOut != Outpoint(0, 0)
    ensures Mempool.Acceptable(p, Fold(chain).utxos, |chain| - 1, t) <==>
            && TxShape(t) && SpendLawful(chain, t) && TokensLawful(rules, chain, t) && StakesPriced(rules, t)
            && RipeInputs(chain, t, |chain| - 1)
            && (p.minFeeRate > 0 ==> Brought(chain, t, Worth()) >= Sum(t.outputs, Worth()) + (p.minFeeRate * SigningSize(t)) % TWO_64)
  {
    hide ChainOk, TxHashSound, Fold, SpendLawful, TokensLawful, RipeInputs, TxShape, TxOk, SpendOk, TokensOk, Brings, Mempool.InputsMature, Unstakes;
    var m := Fold(chain).utxos;
    TxShapeIs(t);
    if SpendOk(t, m) {
      SpendNeedsShape(t, m);
    }
    if TxShape(t) {
      SpendLawfulIs(rules, g, chain, t);
      HasInputs(t);
      TokensLawfulIs(rules, g, chain, t);
      BroughtIs(rules, g, chain, t.inputs, Worth(), ValueOf);
      SameSum(t.outputs, Worth(), ValueOf);
      if SpendOk(t, m) {
        SpendsPresentInputs(t, m);
        PoolMature(rules, g, chain, t, |chain| - 1);
        FeeIsDifference(t, m);
      }
    }
  }

  lemma SpendNeedsShape(t: Tx, m: UtxoMap)
    requires SpendOk(t, m)
    ensures TxOk(t)
  {
  }

  lemma SpendsPresentInputs(t: Tx, m: UtxoMap)
    requires SpendOk(t, m) && forall j :: 0 <= j < |t.inputs| ==> t.inputs[j].prevOut != Outpoint(0, 0)
    ensures forall j :: 0 <= j < |t.inputs| ==> t.inputs[j].prevOut in m
  {
    hide TxOk, OutSum, InSum;
    SpendOkExactlyWhen(t, m);
  }

  lemma FeeIsDifference(t: Tx, m: UtxoMap)
    requires SpendOk(t, m)
    ensures TxFee(m, t) == InSum(m, t.inputs, ValueOf) - OutSum(t, ValueOf) >= 0
  {
  }

  // ---------------------------------------------------------------- the node

  /** What the engine asks of a header: somebody of the set signed it, a genesis validator or with the stake
      behind him; with difficulty 2 in his own slot and 1 in any other; and none of the N/2 blocks below it. */
  ghost predicate HeaderLawful(e: Engine, d: Disk, header: Header)
    requires e.blockTime > 0
    reads e
  {
    var signer := SignerOf(e.validators, header);
    && signer.Some?
    && (e.staking && signer.value !in e.genesisValidators ==> |signer.value| == 33 && Total(d.utxos, StakeOf(signer.value)) >= e.minStake)
    && header.difficulty == (if signer.value == e.validators[(header.timestamp / e.blockTime) % |e.validators|] then 2 else 1)
    && (|e.validators| > 1 ==> forall k: nat :: k < header.height <= k + |e.validators| / 2 ==>
          d.BlockAt(k).None? || SignerOf(e.validators, d.BlockAt(k).value.header) != signer)
  }

  lemma {:induction false} HeaderLawfulIs(e: Engine, d: Disk, header: Header)
    requires e.Valid()
    ensures HeaderLawful(e, d, header) <==> e.HeaderOk(d, header) && SigningOk(e.validators, d, header)
  {
    hide Total, SignerOf, SigningOk;
    SigningOkIs(e.validators, d, header);
    assert forall x: nat :: x % 1 == 0;
  }

  /** A node extends its chain by a block exactly when the block is new, lawful after that chain, no older than
      the tip and no more than 120 seconds ahead of the clock, and its header is. */
  lemma {:induction false} ExtendsExactlyWhen(n: Node, b: Block, now: nat)
    requires n.Core() && TxHashSound()
    ensures n.Extends(b, now) <==>
            && b.Hash() !in n.db.disk.blocks && Lawful(n.rules, n.active, b) && CarriesHeight(b) && Fits(Fold(n.active + [b]))
            && n.engine.blockTime > 0 && HeaderLawful(n.engine, n.db.disk, b.header)
            && |n.active| > 0 && n.active[|n.active| - 1].header.timestamp <= b.header.timestamp <= now + 120
  {
    hide *;
    n.CoreFacts();
    n.ObjectFacts();
    n.EngineFacts();
    LawfulExactlyWhen(n.rules, n.genesis, n.active, b);
    HeaderLawfulIs(n.engine, n.db.disk, b.header);
    ExtendsIs(n, b, now);
  }

  lemma ExtendsIs(n: Node, b: Block, now: nat)
    ensures n.Extends(b, now) <==>
            && |n.active| > 0 && n.engine.blockTime > 0 && b.Hash() !in n.db.disk.blocks
            && n.engine.HeaderOk(n.db.disk, b.header) && SigningOk(n.engine.validators, n.db.disk, b.header)
            && n.active[|n.active| - 1].header.timestamp <= b.header.timestamp <= now + 120
            && CanExtend(n.rules, n.active, b)
  {
    hide SigningOk, StateValid, BlockOk;
  }

  /** Whose node it is: with the stake handlers connected and a price on stakes, and as long as no stored coinbase
      stakes anything, the validators are the genesis validators and exactly the keys whose unspent stakes reach the
      price. */
  lemma {:induction false} ValidatorsAre(n: Node, key: Bytes)
    requires n.Core() && n.wired && n.rules.validatorStake > 0 && n.engine.minStake == n.rules.validatorStake
    requires forall h :: h in n.db.disk.blocks ==> PaysOnly(n.db.disk.blocks[h])
    ensures key in n.engine.validators <==> key in n.engine.genesisValidators || Total(n.db.disk.utxos, StakeOf(key)) >= n.rules.validatorStake
  {
    hide *;
    n.CoreFacts();
    TrackedIs(n);
    LedgerIs(n.db.disk, n.active);
    AgreedKey(n.wired, n.rules, n.engine.minStake, n.engine.genesisValidators, n.engine.validators, n.db.disk, n.active, key);
  }

  /** The coinbase has outputs of other kinds than stakes alone. */
  predicate PaysOnly(b: Block) {
    |b.txs| > 0 && forall i :: 0 <= i < |b.txs[0].outputs| ==> b.txs[0].outputs[i].script.kind != Stake
  }

  lemma TrackedIs(n: Node)
    requires n.wired && n.rules.validatorStake > 0 && n.engine.minStake == n.rules.validatorStake
    requires forall h :: h in n.db.disk.blocks ==> PaysOnly(n.db.disk.blocks[h])
    ensures Tracked(n.wired, n.rules, n.engine.minStake, n.db.disk)
  {
  }

  lemma AgreedKey(wired: bool, rules: Rules, minStake: nat, founders: seq<Bytes>, validators: seq<Bytes>, d: Disk, chain: seq<Block>, key: Bytes)
    requires StaffOk(wired, rules, minStake, founders, validators, d, chain) && Tracked(wired, rules, minStake, d) && d.utxos == Fold(chain).utxos
    ensures key in validators <==> key in founders || Total(d.utxos, StakeOf(key)) >= minStake
  {
    hide Tracked, FixedSet, SignedChain, Fold, Total;
    assert Staked(Fold(chain).utxos, key, minStake) <==> Total(d.utxos, StakeOf(key)) >= minStake;
    assert key in Elements(validators) <==> key in validators;
    assert key in Elements(founders) <==> key in founders;
  }

  /** Where nobody but the genesis validators ever stakes, the set never changes, and no two of any N/2 + 1
      consecutive blocks of the chain have the same signer. */
  lemma {:induction false} FoundersTakeTurns(n: Node, i: nat, j: nat)
    requires n.Core() && |n.engine.genesisValidators| > 1 && i < j < |n.active| && j - i <= |n.engine.genesisValidators| / 2
    requires forall h, key :: h in n.db.disk.blocks && StakesFor(n.db.disk.blocks[h], key) ==> key in n.engine.genesisValidators
    ensures n.engine.validators == n.engine.genesisValidators
    ensures SignerOf(n.engine.validators, n.active[j].header).Some?
    ensures SignerOf(n.engine.validators, n.active[i].header) != SignerOf(n.engine.validators, n.active[j].header)
  {
    hide *;
    n.CoreFacts();
    FixedIs(n);
    FixedStaff(n.wired, n.rules, n.engine.minStake, n.engine.genesisValidators, n.engine.validators, n.db.disk, n.active);
    TurnsAt(n.engine.validators, n.active, i, j);
  }

  /** Some transaction of the block stakes for the key. */
  ghost predicate StakesFor(b: Block, key: Bytes) {
    exists i, k :: 0 <= i < |b.txs| && 0 <= k < |b.txs[i].outputs| && b.txs[i].outputs[k].script == Script(Stake, key) && |key| == 33
  }

  lemma {:induction false} FixedIs(n: Node)
    requires forall h, key :: h in n.db.disk.blocks && StakesFor(n.db.disk.blocks[h], key) ==> key in n.engine.genesisValidators
    ensures FixedSet(n.wired, n.engine.genesisValidators, n.db.disk)
  {
    forall h, key | h in n.db.disk.blocks && key in KeysOfTxs(n.db.disk.blocks[h].txs)
      ensures key in n.engine.genesisValidators
    {
      var b := n.db.disk.blocks[h];
      KeysOfTxsIs(b.txs, key);
      var i :| 0 <= i < |b.txs| && key in KeysOfOutputs(b.txs[i].outputs);
      KeysOfOutputsIs(b.txs[i].outputs, key);
      var k :| 0 <= k < |b.txs[i].outputs| && StakesTo(b.txs[i].outputs[k], key);
      assert b.txs[i].outputs[k].script == Script(Stake, key);
      assert StakesFor(b, key);
    }
  }

  lemma FixedStaff(wired: bool, rules: Rules, minStake: nat, founders: seq<Bytes>, validators: seq<Bytes>, d: Disk, chain: seq<Block>)
    requires StaffOk(wired, rules, minStake, founders, validators, d, chain) && FixedSet(wired, founders, d)
    ensures validators == founders && SignedChain(founders, chain)
  {
    hide Tracked, FixedSet, SignedChain, Fold, Total;
  }

  lemma TurnsAt(validators: seq<Bytes>, chain: seq<Block>, i: nat, j: nat)
    requires SignedChain(validators, chain) && |validators| > 1 && i < j < |chain| && j - i <= |validators| / 2
    ensures SignerOf(validators, chain[j].header).Some? && SignerOf(validators, chain[i].header) != SignerOf(validators, chain[j].header)
  {
    hide SignerOf;
    assert SignerAt(validators, chain, i) != SignerAt(validators, chain, j);
    assert SignerAt(validators, chain, j).Some?;
  }

  // ---------------------------------------------------------------- the fork choice

  lemma {:induction false} WorkIsSum(chain: seq<Block>)
    ensures Fold(chain).cumDiff == Sum(chain, DifficultyOf)
  {
    if |chain| > 0 {
      WorkIsSum(chain[..|chain| - 1]);
    }
  }

  /** Of its chain and a stored branch that ends in `b`, a node chooses the branch exactly when it reaches the tip's
      height, can be walked in 1000 blocks, and its difficulties add up to more. */
  lemma {:induction false} ChosenExactlyWhen(d: Disk, g: Block, chain: seq<Block>, b: Block)
    requires StoreOk(d, g) && b.Hash() in d.blocks && |chain| > 0
    ensures var target := Switch(chain, Path(d, g, chain, b.Hash()));
            var better := b.header.height >= |chain| - 1 && |Walk(d, g, b.Hash())| <= 1000 && Sum(target, DifficultyOf) > Sum(chain, DifficultyOf);
            Chosen(d, g, chain, b) == if better then target else chain
  {
    hide StoreOk, Path, Walk, Switch, Fold;
    WorkIsSum(chain);
    WorkIsSum(Switch(chain, Path(d, g, chain, b.Hash())));
  }
}
