/** Two histories on which a rebuild runs the stake handlers of the new branch only and leaves the wrong
    validator set (internal/chain/reorg.go): every chain in them is one that the rules accept. */
module Divergence {
  import opened Primitives
  import opened Types
  import opened Ledger
  import opened Weights
  import opened TxRules
  import opened Tokens
  import opened BlockRules
  import opened Merkle
  import opened Subsidy
  import opened StateRules
  import opened Replay
  import opened Poa
  import opened Signing
  import opened Economics
  import opened UtxoStore
  import opened Validators
  import opened Genesis
  import opened Mining

  /** The cast: `stake` turns the first output of genesis into the stake of `key`, and `release` takes it
      back. The keys open what they spend, the signatures verify, and the rewards are plain. */
  ghost predicate Cast(rules: Rules, g: Block, stake: Tx, release: Tx, key: Bytes) {
    && GenesisOk(g) && |g.txs[0].outputs| > 0 && g.txs[0].outputs[0].value == rules.validatorStake > 0
    && rules.maxSupply == 0 && rules.halvingInterval == 0 && rules.blockReward > 0
    && OutSum(g.txs[0], ValueOf) + 2 * rules.blockReward <= MAX_U64
    && Spender(stake, Outpoint(TxHash(g.txs[0]), 0)) && PaysTo(stake.inputs[0].pubKey, g.txs[0].outputs[0].script.data)
    && stake.outputs == [Output(rules.validatorStake, Script(Stake, key), None)] && |key| == PUBKEY_SIZE
    && Spender(release, Outpoint(TxHash(stake), 0)) && release.inputs[0].pubKey == key
    && |release.outputs| == 1 && PaysAddress(release.outputs[0]) && release.outputs[0].value == rules.validatorStake
  }

  /** One signed input, from `op`. */
  ghost predicate Spender(t: Tx, op: Outpoint) {
    && |t.inputs| == 1 && t.inputs[0].prevOut == op && !op.IsZero() && |t.inputs[0].signature| > 0
    && VerifySignature(TxHash(t), t.inputs[0].signature, t.inputs[0].pubKey)
  }

  /** What Prepare and Seal put on a block. */
  datatype Seal = Seal(time: Uint64, difficulty: Uint64, sig: Bytes)

  /** The block a miner assembles on a chain from at most one transaction. */
  ghost function Mined(rules: Rules, chain: seq<Block>, selected: seq<Tx>, addr: Address, seal: Seal): Block
    requires 0 < |chain| <= MAX_U64
  {
    var coinbase := BuildCoinbase(addr, Add64(AllowedMint(rules, Fold(chain).supply, |chain|), 0), |chain|);
    var txs := [coinbase] + selected;
    Block(Header(1, chain[|chain| - 1].Hash(), Root(TxHashes(txs)), seal.time, |chain|, seal.difficulty, 0, seal.sig), txs)
  }

  // ---------------------------------------------------------------- spending one output into one

  /** A transaction that moves a whole token-free output is accepted. */
  lemma PlainSpend(rules: Rules, m: UtxoMap, height: Uint64, t: Tx, u: Utxo)
    requires |t.inputs| == 1 && |t.outputs| == 1 && !u.outpoint.IsZero() && t.inputs[0].prevOut == u.outpoint && u.outpoint in m && m[u.outpoint] == u
    requires u.token.None? && !u.coinbase && u.lockedUntil == 0 && Unlocks(t.inputs[0].pubKey, u.script) && VerifySignature(TxHash(t), t.inputs[0].signature, t.inputs[0].pubKey)
    requires |t.inputs[0].signature| > 0 && |t.inputs[0].pubKey| > 0
    requires var o := t.outputs[0]; o.value == u.value > 0 && o.token.None? && (o.script.kind == P2PKH || o.script.kind == Stake) && OutputOk(o)
    requires t.outputs[0].script.kind == Stake ==> t.outputs[0].value == rules.validatorStake
    ensures Spendable(rules, m, height, t) && TxFee(m, t) == 0
  {
    SumOfOne(t.outputs[0], ValueOf);
    assert t.outputs == [t.outputs[0]];
    OneIn(m, t.inputs, ValueOf);
    forall id
      ensures TokenSumsFit(t, m, id) && TokenBalanced(t, m, id)
    {
      SumOfOne(t.outputs[0], Tokens.Keeps(id));
      SumOfOne(t.outputs[0], Burns(id));
      OneIn(m, t.inputs, Carries(id));
    }
  }

  lemma OneIn(m: UtxoMap, ins: seq<Input>, v: Weight)
    requires |ins| == 1 && !ins[0].prevOut.IsZero() && ins[0].prevOut in m
    ensures InSum(m, ins, v) == v(AsOutput(m[ins[0].prevOut]))
  {
    assert InSum(m, ins[..0], v) == 0;
  }

  // ---------------------------------------------------------------- mining on it

  lemma MinedIsAssembled(rules: Rules, chain: seq<Block>, selected: seq<Tx>, fees: seq<Uint64>, addr: Address, seal: Seal)
    requires 0 < |chain| <= MAX_U64 && |selected| <= 1 && Sum(fees, Itself) == 0 && seal.time > 0 && Fold(chain).supply <= MAX_U64
    ensures var tip := Tip(chain[|chain| - 1].Hash(), |chain| - 1, seal.time - 1, Fold(chain).supply);
            TipOf(tip, chain) && Assembled(Mined(rules, chain, selected, addr, seal), rules, tip, selected, fees, addr)
  {
    hide Fold, AllowedMint, Sum, Root, HeightTag;
    var b := Mined(rules, chain, selected, addr, seal);
    assert b.txs[1..] == selected;
  }

  ghost predicate Moves(rules: Rules, m: UtxoMap, height: Uint64, t: Tx) {
    Spendable(rules, m, height, t) && TxFee(m, t) == 0 && forall i :: 0 <= i < |t.outputs| ==> t.outputs[i].script.kind != Register
  }

  lemma {:induction false} MinedExtends(rules: Rules, chain: seq<Block>, selected: seq<Tx>, addr: Address, seal: Seal)
    requires 0 < |chain| <= MAX_U64 && |selected| <= 1 && seal.time > 0
    requires forall t :: t in selected ==> Moves(rules, Fold(chain).utxos, |chain|, t)
    requires rules.maxSupply == 0 && rules.halvingInterval == 0 && rules.blockReward > 0
    requires Fold(chain).supply + rules.blockReward <= MAX_U64 && Fold(chain).cumDiff + seal.difficulty <= MAX_U64
    requires HEADER_SIZE + TxsSize(Mined(rules, chain, selected, addr, seal).txs) <= MAX_BLOCK_SIZE
    ensures var b := Mined(rules, chain, selected, addr, seal);
            && CanExtend(rules, chain, b) && Minted(Fold(chain).utxos, b.txs) == rules.blockReward
  {
    var b, m := Mined(rules, chain, selected, addr, seal), Fold(chain).utxos;
    var fees: seq<Uint64> := if |selected| == 0 then [] else [0];
    var tip := Tip(chain[|chain| - 1].Hash(), |chain| - 1, seal.time - 1, Fold(chain).supply);
    FullReward(rules, Fold(chain).supply, |chain|);
    NoFees(m, selected, fees);
    OneIsSelectable(rules, m, |chain|, selected);
    hide *;
    MinedIsAssembled(rules, chain, selected, fees, addr, seal);
    MinedShape(rules, chain, selected, addr, seal);
    MintsItsShare(rules, m, tip, b, selected, fees, addr);
    WrapsBelow(rules.blockReward, 0);
    NothingRegisters(rules, Fold(chain).registered, m, |chain|, b.txs[0], selected);
    PublishableIs(rules, Fold(chain), b);
    AssembledExtendsExactlyWhen(rules, chain, tip, b, selected, fees, addr);
  }

  lemma FullReward(rules: Rules, supply: nat, height: nat)
    requires rules.maxSupply == 0 && rules.halvingInterval == 0 && height > 0
    ensures AllowedMint(rules, supply, height) == rules.blockReward
  {
  }

  lemma NoFees(m: UtxoMap, selected: seq<Tx>, fees: seq<Uint64>)
    requires |selected| <= 1 && (forall t :: t in selected ==> TxFee(m, t) == 0) && fees == (if |selected| == 0 then [] else [0])
    ensures FeesOf(m, selected, fees) && Sum(fees, Itself) == 0
    ensures forall coinbase: Tx :: Fees(m, [coinbase] + selected) == 0
  {
    forall coinbase: Tx
      ensures Fees(m, [coinbase] + selected) == 0
    {
      if |selected| == 1 {
        assert ([coinbase] + selected)[..1] == [coinbase] && ([coinbase] + selected)[1] == selected[0];
      }
    }
    if |selected| == 1 {
      SumOfOne(fees[0], Itself);
      assert fees == [fees[0]];
    }
  }

  lemma OneIsSelectable(rules: Rules, m: UtxoMap, height: Uint64, selected: seq<Tx>)
    requires |selected| <= 1 && forall t :: t in selected ==> Moves(rules, m, height, t)
    ensures Selectable(rules, m, height, selected)
  {
    hide Spendable;
  }

  lemma MinedShape(rules: Rules, chain: seq<Block>, selected: seq<Tx>, addr: Address, seal: Seal)
    requires 0 < |chain| <= MAX_U64
    ensures var b := Mined(rules, chain, selected, addr, seal);
            && |b.txs| == |selected| + 1 && b.txs == [b.txs[0]] + selected && b.txs[1..] == selected && b.header.height == |chain| && b.header.difficulty == seal.difficulty
            && |b.txs[0].outputs| == 1 && b.txs[0].outputs[0].script.kind == P2PKH && b.txs[0].inputs == BuildCoinbase(addr, 0, |chain|).inputs
  {
  }

  lemma NothingRegisters(rules: Rules, existing: nat, m: UtxoMap, height: Uint64, coinbase: Tx, selected: seq<Tx>)
    requires |coinbase.outputs| == 1 && coinbase.outputs[0].script.kind == P2PKH && |selected| <= 1
    requires forall t :: t in selected ==> Moves(rules, m, height, t)
    ensures AllRegistrationsOk(rules, existing, [coinbase] + selected)
  {
    hide Spendable;
    var txs := [coinbase] + selected;
    forall i | 0 <= i < |txs|
      ensures RegistrationsOkAt(rules, existing, txs, i) && OutSum(txs[i], IsRegistration) == 0
    {
      if i > 0 {
        assert txs[i] == selected[0] && txs[i] in selected;
      }
      RegistersNothing(txs[i].outputs);
    }
    assert txs[..1] == [coinbase] && txs[..1][..0] == [];
    if |txs| == 2 {
      assert txs[..2] == txs;
    } else {
      assert txs[..1] == txs;
    }
  }

  lemma {:induction false} RegistersNothing(outs: seq<Output>)
    requires forall i :: 0 <= i < |outs| ==> outs[i].script.kind != Register
    ensures Sum(outs, IsRegistration) == 0
  {
    if |outs| > 0 {
      RegistersNothing(outs[..|outs| - 1]);
    }
  }

  // ---------------------------------------------------------------- the stakes on the way

  /** A mined block moves the stake of a key by what its transaction does. */
  lemma {:induction false} StakeMoves(rules: Rules, g: Block, chain: seq<Block>, selected: seq<Tx>, addr: Address, seal: Seal, k: Bytes)
    requires TxHashSound() && ChainOk(rules, g, chain) && 0 < |chain| <= MAX_U64 && |selected| <= 1
    requires CanExtend(rules, chain, Mined(rules, chain, selected, addr, seal))
    ensures var m, after := Fold(chain).utxos, Fold(chain + [Mined(rules, chain, selected, addr, seal)]).utxos;
            && (selected == [] ==> Total(after, StakeOf(k)) == Total(m, StakeOf(k)))
            && (|selected| == 1 ==> Total(after, StakeOf(k)) + InSum(m, selected[0].inputs, StakeOf(k)) == Total(m, StakeOf(k)) + OutSum(selected[0], StakeOf(k)))
  {
    hide *;
    var b, m := Mined(rules, chain, selected, addr, seal), Fold(chain).utxos;
    MinedShape(rules, chain, selected, addr, seal);
    MinedCoinbase(rules, chain, selected, addr, seal, k);
    WeightStep(rules, g, chain, b, StakeOf(k));
    OneAfterCoinbase(m, b.txs[0], selected, StakeOf(k));
  }

  lemma MinedCoinbase(rules: Rules, chain: seq<Block>, selected: seq<Tx>, addr: Address, seal: Seal, k: Bytes)
    requires 0 < |chain| <= MAX_U64
    ensures var t := Mined(rules, chain, selected, addr, seal).txs[0]; IsCoinbase(t) && OutSum(t, StakeOf(k)) == 0
  {
    var t := Mined(rules, chain, selected, addr, seal).txs[0];
    SumOfOne(t.outputs[0], StakeOf(k));
    assert t.outputs == [t.outputs[0]];
  }

  lemma OneAfterCoinbase(m: UtxoMap, coinbase: Tx, selected: seq<Tx>, v: Weight)
    requires IsCoinbase(coinbase) && |selected| <= 1 && OutSum(coinbase, v) == 0
    ensures BlockIn(m, [coinbase] + selected, v) == (if |selected| == 0 then 0 else InSum(m, selected[0].inputs, v))
    ensures BlockOut([coinbase] + selected, v) == (if |selected| == 0 then 0 else OutSum(selected[0], v))
  {
    var txs := [coinbase] + selected;
    CoinbaseTakesNothing(m, coinbase, v);
    assert [coinbase][..0] == [];
    assert BlockIn(m, [coinbase], v) == 0 && BlockOut([coinbase], v) == 0;
    if |selected| == 1 {
      assert txs[1] == selected[0] && txs[..1] == [coinbase];
    } else {
      assert txs == [coinbase];
    }
  }

  /** An output of a mined block's transaction, where it belongs in the ledger. */
  lemma {:induction false} MinedCreates(rules: Rules, g: Block, chain: seq<Block>, t: Tx, addr: Address, seal: Seal)
    requires TxHashSound() && ChainOk(rules, g, chain) && 0 < |chain| <= MAX_U64 && |t.outputs| > 0
    requires CanExtend(rules, chain, Mined(rules, chain, [t], addr, seal)) && !SpendsStake(Fold(chain).utxos, t)
    ensures var op, after := Outpoint(TxHash(t), 0), Fold(chain + [Mined(rules, chain, [t], addr, seal)]).utxos;
            op in after && after[op] == NewUtxo(t, 0, |chain|, false, 0)
  {
    hide Fold, CanExtend, ChainOk, ApplyTxs, Mined, SpendsStake, Snapshot, TxHashSound;
    var b := Mined(rules, chain, [t], addr, seal);
    MinedShape(rules, chain, [t], addr, seal);
    FoldStep(chain, b);
    NextBlockFresh(rules, g, chain, b);
    CreatedIs(Fold(chain).utxos, b.txs, |chain|, 1, 0);
  }

  lemma {:induction false} GenesisFacts(rules: Rules, g: Block, k: Bytes)
    requires GenesisOk(g)
    ensures ChainOk(rules, g, [g]) && NoCoinbaseStake(g) && Fold([g]).supply == OutSum(g.txs[0], ValueOf) && Fold([g]).cumDiff == 0
    ensures Total(Fold([g]).utxos, StakeOf(k)) == 0
  {
    GenesisTotal(g, StakeOf(k));
    NoStakePaid(g.txs[0].outputs, k);
  }

  lemma {:induction false} NoStakePaid(outs: seq<Output>, k: Bytes)
    requires forall i :: 0 <= i < |outs| ==> outs[i].script.kind == P2PKH
    ensures Sum(outs, StakeOf(k)) == 0
  {
    if |outs| > 0 {
      NoStakePaid(outs[..|outs| - 1], k);
    }
  }

  lemma {:induction false} FirstOutputPaid(g: Block)
    requires GenesisOk(g) && |g.txs[0].outputs| > 0
    ensures var op, m := Outpoint(TxHash(g.txs[0]), 0), Fold([g]).utxos;
            op in m && m[op] == NewUtxo(g.txs[0], 0, 0, false, 0)
  {
    GenesisFold(g);
    ZeroSpendsNothing(g.txs[0]);
    hide ApplyTxs, Fold, GenesisOk;
    assert Snapshot(map[], g.txs);
    CreatedIs(map[], g.txs, 0, 0, 0);
  }

  /** The owner can stake... */
  lemma {:induction false} StakingMoves(rules: Rules, g: Block, stake: Tx, release: Tx, key: Bytes, m: UtxoMap)
    requires Cast(rules, g, stake, release, key)
    requires var op := Outpoint(TxHash(g.txs[0]), 0); op in m && m[op] == NewUtxo(g.txs[0], 0, 0, false, 0)
    ensures Moves(rules, m, 1, stake) && !SpendsStake(m, stake)
    ensures forall k :: InSum(m, stake.inputs, StakeOf(k)) == 0 && OutSum(stake, StakeOf(k)) == if k == key then rules.validatorStake else 0
  {
    PlainSpend(rules, m, 1, stake, m[stake.inputs[0].prevOut]);
    assert PaysAddress(g.txs[0].outputs[0]);
    forall k
      ensures InSum(m, stake.inputs, StakeOf(k)) == 0 && OutSum(stake, StakeOf(k)) == if k == key then rules.validatorStake else 0
    {
      OneIn(m, stake.inputs, StakeOf(k));
      SumOfOne(stake.outputs[0], StakeOf(k));
    }
  }

  /** ... and the validator can take the stake back, wherever it is unspent. */
  lemma {:induction false} UnstakingMoves(rules: Rules, g: Block, stake: Tx, release: Tx, key: Bytes, m: UtxoMap)
    requires Cast(rules, g, stake, release, key)
    requires var op := Outpoint(TxHash(stake), 0); op in m && m[op] == NewUtxo(stake, 0, 1, false, 0)
    ensures Moves(rules, m, 2, release)
    ensures forall k :: OutSum(release, StakeOf(k)) == 0 && InSum(m, release.inputs, StakeOf(k)) == if k == key then rules.validatorStake else 0
  {
    PlainSpend(rules, m, 2, release, m[release.inputs[0].prevOut]);
    assert release.outputs == [release.outputs[0]];
    forall k
      ensures OutSum(release, StakeOf(k)) == 0 && InSum(m, release.inputs, StakeOf(k)) == if k == key then rules.validatorStake else 0
    {
      OneIn(m, release.inputs, StakeOf(k));
      SumOfOne(release.outputs[0], StakeOf(k));
    }
  }

  // ---------------------------------------------------------------- the chains

  /** A chain of the rules on which every key in `staked`, and no other, has a stake of `amount`. */
  ghost predicate Holds(rules: Rules, g: Block, chain: seq<Block>, staked: set<Bytes>, amount: nat) {
    && |chain| > 0 && ChainOk(rules, g, chain) && (forall b :: b in chain ==> NoCoinbaseStake(b))
    && forall k :: Total(Fold(chain).utxos, StakeOf(k)) == if k in staked then amount else 0
  }

  lemma GenesisHolds(rules: Rules, g: Block, amount: nat)
    requires GenesisOk(g)
    ensures Holds(rules, g, [g], {}, amount)
  {
    hide ChainOk, GenesisOk, Fold, NoCoinbaseStake;
    forall k
      ensures Total(Fold([g]).utxos, StakeOf(k)) == 0 && ChainOk(rules, g, [g]) && NoCoinbaseStake(g)
    {
      GenesisFacts(rules, g, k);
    }
    assert ChainOk(rules, g, [g]) by {
      GenesisFacts(rules, g, []);
    }
    assert NoCoinbaseStake(g) by {
      GenesisFacts(rules, g, []);
    }
  }

  /** Mining on. */
  lemma {:induction false} NextHolds(rules: Rules, g: Block, chain: seq<Block>, staked: set<Bytes>, amount: nat, selected: seq<Tx>, addr: Address, seal: Seal, after: set<Bytes>)
    requires TxHashSound() && Holds(rules, g, chain, staked, amount) && 0 < |chain| <= MAX_U64 && |selected| <= 1 && seal.time > 0
    requires forall t :: t in selected ==> Moves(rules, Fold(chain).utxos, |chain|, t)
    requires rules.maxSupply == 0 && rules.halvingInterval == 0 && rules.blockReward > 0
    requires Fold(chain).supply + rules.blockReward <= MAX_U64 && Fold(chain).cumDiff + seal.difficulty <= MAX_U64
    requires HEADER_SIZE + TxsSize(Mined(rules, chain, selected, addr, seal).txs) <= MAX_BLOCK_SIZE
    requires selected == [] ==> after == staked
    requires |selected| == 1 ==> forall k ::
               (if k in staked then amount else 0) + OutSum(selected[0], StakeOf(k)) ==
               InSum(Fold(chain).utxos, selected[0].inputs, StakeOf(k)) + if k in after then amount else 0
    ensures var b := Mined(rules, chain, selected, addr, seal);
            && CanExtend(rules, chain, b) && Holds(rules, g, chain + [b], after, amount)
            && Fold(chain + [b]).supply == Fold(chain).supply + rules.blockReward && Fold(chain + [b]).cumDiff == Fold(chain).cumDiff + seal.difficulty
  {
    var b := Mined(rules, chain, selected, addr, seal);
    hide *;
    HoldsIs(rules, g, chain, staked, amount);
    MinedExtends(rules, chain, selected, addr, seal);
    MinedShape(rules, chain, selected, addr, seal);
    ChainExtends(rules, g, chain, b);
    FoldStep(chain, b);
    Advanced(Fold(chain), b);
    MinedStakesNothing(rules, chain, selected, addr, seal);
    NextStakes(rules, g, chain, staked, amount, selected, addr, seal, after);
    HoldsOn(rules, g, chain, b, after, amount);
  }

  lemma HoldsOn(rules: Rules, g: Block, chain: seq<Block>, b: Block, staked: set<Bytes>, amount: nat)
    requires ChainOk(rules, g, chain + [b]) && (forall c :: c in chain ==> NoCoinbaseStake(c)) && NoCoinbaseStake(b)
    requires forall k :: Total(Fold(chain + [b]).utxos, StakeOf(k)) == if k in staked then amount else 0
    ensures Holds(rules, g, chain + [b], staked, amount)
  {
    hide ChainOk, NoCoinbaseStake, Fold, Total;
  }

  lemma {:induction false} NextStakes(rules: Rules, g: Block, chain: seq<Block>, staked: set<Bytes>, amount: nat, selected: seq<Tx>, addr: Address, seal: Seal, after: set<Bytes>)
    requires TxHashSound() && Holds(rules, g, chain, staked, amount) && 0 < |chain| <= MAX_U64 && |selected| <= 1
    requires CanExtend(rules, chain, Mined(rules, chain, selected, addr, seal))
    requires selected == [] ==> after == staked
    requires |selected| == 1 ==> forall k ::
               (if k in staked then amount else 0) + OutSum(selected[0], StakeOf(k)) ==
               InSum(Fold(chain).utxos, selected[0].inputs, StakeOf(k)) + if k in after then amount else 0
    ensures forall k :: Total(Fold(chain + [Mined(rules, chain, selected, addr, seal)]).utxos, StakeOf(k)) == if k in after then amount else 0
  {
    hide *;
    HoldsIs(rules, g, chain, staked, amount);
    forall k
      ensures Total(Fold(chain + [Mined(rules, chain, selected, addr, seal)]).utxos, StakeOf(k)) == if k in after then amount else 0
    {
      StakeMoves(rules, g, chain, selected, addr, seal, k);
    }
  }

  lemma HoldsIs(rules: Rules, g: Block, chain: seq<Block>, staked: set<Bytes>, amount: nat)
    ensures Holds(rules, g, chain, staked, amount) <==>
            && |chain| > 0 && ChainOk(rules, g, chain) && (forall b :: b in chain ==> NoCoinbaseStake(b))
            && forall k :: Total(Fold(chain).utxos, StakeOf(k)) == if k in staked then amount else 0
  {
    hide ChainOk, NoCoinbaseStake, Fold, Total;
  }

  lemma Advanced(s: State, b: Block)
    requires |b.txs| > 0
    ensures Advance(s, b).supply == s.supply + Minted(s.utxos, b.txs) && Advance(s, b).cumDiff == s.cumDiff + b.header.difficulty
  {
  }

  lemma MinedStakesNothing(rules: Rules, chain: seq<Block>, selected: seq<Tx>, addr: Address, seal: Seal)
    requires 0 < |chain| <= MAX_U64
    ensures NoCoinbaseStake(Mined(rules, chain, selected, addr, seal))
  {
  }

  ghost predicate Small(b: Block) {
    HEADER_SIZE + TxsSize(b.txs) <= MAX_BLOCK_SIZE
  }

  /** Next to genesis, a block with the stake... */
  lemma {:induction false} StakedHolds(rules: Rules, g: Block, stake: Tx, release: Tx, key: Bytes, addr: Address, seal: Seal)
    requires TxHashSound() && Cast(rules, g, stake, release, key) && 0 < seal.time && seal.difficulty <= 2
    requires Small(Mined(rules, [g], [stake], addr, seal))
    ensures var b := Mined(rules, [g], [stake], addr, seal);
            && Holds(rules, g, [g] + [b], {key}, rules.validatorStake)
            && Fold([g] + [b]).supply + rules.blockReward <= MAX_U64 && Fold([g] + [b]).cumDiff == seal.difficulty
            && var op, m := Outpoint(TxHash(stake), 0), Fold([g] + [b]).utxos; op in m && m[op] == NewUtxo(stake, 0, 1, false, 0)
  {
    hide ChainOk, CanExtend, Fold, Mined, Moves, Holds, OutSum, InSum, SpendsStake, GenesisOk, PaysAddress, TxsSize;
    GenesisFacts(rules, g, key);
    GenesisHolds(rules, g, rules.validatorStake);
    FirstOutputPaid(g);
    StakingMoves(rules, g, stake, release, key, Fold([g]).utxos);
    NextHolds(rules, g, [g], {}, rules.validatorStake, [stake], addr, seal, {key});
    MinedCreates(rules, g, [g], stake, addr, seal);
  }

  /** ... and one without. */
  lemma {:induction false} IdleHolds(rules: Rules, g: Block, stake: Tx, release: Tx, key: Bytes, addr: Address, seal: Seal)
    requires TxHashSound() && Cast(rules, g, stake, release, key) && 0 < seal.time && seal.difficulty <= 2
    requires Small(Mined(rules, [g], [], addr, seal))
    ensures var c := Mined(rules, [g], [], addr, seal);
            Holds(rules, g, [g] + [c], {}, rules.validatorStake) && Fold([g] + [c]).cumDiff == seal.difficulty
  {
    hide ChainOk, CanExtend, Fold, Mined, Moves, Holds, OutSum, InSum, SpendsStake, GenesisOk, PaysAddress, TxsSize;
    GenesisFacts(rules, g, key);
    GenesisHolds(rules, g, rules.validatorStake);
    NextHolds(rules, g, [g], {}, rules.validatorStake, [], addr, seal, {});
  }

  /** On top of the stake, a block that takes it back and one that does not. */
  lemma {:induction false} SecondBlocksHold(rules: Rules, g: Block, stake: Tx, release: Tx, key: Bytes, addr: Address, staking: Seal, leaving: Seal, idling: Seal)
    requires TxHashSound() && Cast(rules, g, stake, release, key)
    requires 0 < staking.time && 0 < leaving.time && 0 < idling.time && staking.difficulty <= 2 && leaving.difficulty <= 2 && idling.difficulty <= 2
    requires var s := Mined(rules, [g], [stake], addr, staking); Small(s) && Small(Mined(rules, [g] + [s], [release], addr, leaving)) && Small(Mined(rules, [g] + [s], [], addr, idling))
    ensures var fork := [g] + [Mined(rules, [g], [stake], addr, staking)];
            var b, c := Mined(rules, fork, [release], addr, leaving), Mined(rules, fork, [], addr, idling);
            && Holds(rules, g, fork + [b], {}, rules.validatorStake) && Holds(rules, g, fork + [c], {key}, rules.validatorStake)
            && Fold(fork + [b]).cumDiff == staking.difficulty + leaving.difficulty && Fold(fork + [c]).cumDiff == staking.difficulty + idling.difficulty
  {
    hide ChainOk, CanExtend, Fold, Mined, Moves, Holds, OutSum, InSum, GenesisOk, PaysAddress, TxsSize;
    var fork := [g] + [Mined(rules, [g], [stake], addr, staking)];
    StakedHolds(rules, g, stake, release, key, addr, staking);
    UnstakingMoves(rules, g, stake, release, key, Fold(fork).utxos);
    NextHolds(rules, g, fork, {key}, rules.validatorStake, [release], addr, leaving, {});
    NextHolds(rules, g, fork, {key}, rules.validatorStake, [], addr, idling, {key});
  }

  // ---------------------------------------------------------------- who seals them

  /** The founders seal everything; the validators are `before` without the key, and `after` with it. */
  ghost predicate Hands(g: Block, founders: set<Bytes>, key: Bytes, before: seq<Bytes>, after: seq<Bytes>) {
    g.header.validatorSig == [] && key !in founders && Elements(before) == founders && Elements(after) == founders + {key}
  }

  /** `signer`, one of the founders and the only validator ever to verify, seals the block with the
      difficulty of its turn among `validators`. */
  ghost predicate Sealed(founders: set<Bytes>, validators: seq<Bytes>, after: seq<Bytes>, b: Block, signer: Bytes, blockTime: nat)
    requires blockTime > 0
  {
    signer in founders && OnlyKey(after, b.header, signer) && b.header.difficulty == ExpectedDifficulty(validators, b.header, signer, blockTime)
  }

  /** What the rules on headers ask of a block on `chain`: a founder's signature, not repeated within the
      signing window, with the difficulty of its turn, and a later timestamp. */
  ghost predicate HeaderFits(founders: set<Bytes>, validators: seq<Bytes>, chain: seq<Block>, b: Block, blockTime: nat)
    requires blockTime > 0 && |chain| > 0
  {
    var signer := SignerOf(validators, b.header);
    && signer.Some? && signer.value in founders && b.header.difficulty == ExpectedDifficulty(validators, b.header, signer.value, blockTime)
    && (forall k: nat :: k < |chain| && |chain| - k < SigningWindow(|validators|) ==> SignerAt(validators, chain, k) != signer)
    && chain[|chain| - 1].header.timestamp < b.header.timestamp
  }

  lemma SealFits(g: Block, founders: set<Bytes>, key: Bytes, before: seq<Bytes>, after: seq<Bytes>, validators: seq<Bytes>, chain: seq<Block>, b: Block, signer: Bytes, blockTime: nat)
    requires blockTime > 0 && Hands(g, founders, key, before, after) && validators in {before, after}
    requires Sealed(founders, validators, after, b, signer, blockTime)
    requires |chain| > 0 && chain[|chain| - 1].header.timestamp < b.header.timestamp
    requires forall k: nat :: k < |chain| ==> chain[k].header.validatorSig == [] || exists other :: other != signer && other in founders && OnlyKey(after, chain[k].header, other)
    ensures HeaderFits(founders, validators, chain, b, blockTime)
  {
    hide ExpectedDifficulty;
    OneSigns(g, founders, key, before, after, validators, b.header, signer);
    forall k: nat | k < |chain|
      ensures SignerAt(validators, chain, k) != Some(signer)
    {
      if chain[k].header.validatorSig != [] {
        var other :| other != signer && other in founders && OnlyKey(after, chain[k].header, other);
        OneSigns(g, founders, key, before, after, validators, chain[k].header, other);
      }
    }
  }

  lemma HandsHave(g: Block, founders: set<Bytes>, key: Bytes, before: seq<Bytes>, after: seq<Bytes>)
    requires Hands(g, founders, key, before, after)
    ensures g.header.validatorSig == [] && key !in founders
  {
  }

  lemma SealedIs(founders: set<Bytes>, validators: seq<Bytes>, after: seq<Bytes>, b: Block, signer: Bytes, blockTime: nat)
    requires blockTime > 0 && Sealed(founders, validators, after, b, signer, blockTime)
    ensures signer in founders && OnlyKey(after, b.header, signer) && 1 <= b.header.difficulty <= 2
  {
    hide OnlyKey, SlotValidator;
  }

  /** Next to genesis... */
  lemma FirstFits(g: Block, founders: set<Bytes>, key: Bytes, before: seq<Bytes>, after: seq<Bytes>, validators: seq<Bytes>, b: Block, signer: Bytes, blockTime: nat)
    requires blockTime > 0 && Hands(g, founders, key, before, after) && validators in {before, after}
    requires Sealed(founders, validators, after, b, signer, blockTime) && g.header.timestamp < b.header.timestamp
    ensures HeaderFits(founders, validators, [g], b, blockTime) && key !in founders && 1 <= b.header.difficulty <= 2
  {
    HandsHave(g, founders, key, before, after);
    SealedIs(founders, validators, after, b, signer, blockTime);
    hide Sealed, HeaderFits, Hands;
    SealFits(g, founders, key, before, after, validators, [g], b, signer, blockTime);
  }

  /** ... and on top of a block that another founder sealed. */
  lemma SecondFits(g: Block, founders: set<Bytes>, key: Bytes, before: seq<Bytes>, after: seq<Bytes>, validators: seq<Bytes>, s: Block, first: Bytes, b: Block, signer: Bytes, blockTime: nat)
    requires blockTime > 0 && Hands(g, founders, key, before, after) && validators in {before, after} && first != signer
    requires Sealed(founders, before, after, s, first, blockTime) && Sealed(founders, validators, after, b, signer, blockTime)
    requires s.header.timestamp < b.header.timestamp
    ensures HeaderFits(founders, validators, [g] + [s], b, blockTime) && 1 <= b.header.difficulty <= 2
  {
    HandsHave(g, founders, key, before, after);
    SealedIs(founders, before, after, s, first, blockTime);
    SealedIs(founders, validators, after, b, signer, blockTime);
    hide Sealed, HeaderFits, Hands, OnlyKey;
    SealFits(g, founders, key, before, after, validators, [g] + [s], b, signer, blockTime);
  }

  lemma OneSigns(g: Block, founders: set<Bytes>, key: Bytes, before: seq<Bytes>, after: seq<Bytes>, validators: seq<Bytes>, header: Header, signer: Bytes)
    requires Hands(g, founders, key, before, after) && validators in {before, after}
    requires signer in founders && OnlyKey(after, header, signer)
    ensures SignerOf(validators, header) == Some(signer)
  {
    ElementsMean(validators);
    ElementsMean(after);
    OnlyKeySigns(validators, header, signer);
  }

  lemma ElementsMean(s: seq<Bytes>)
    ensures forall x :: x in Elements(s) <==> x in s
  {
  }

  // ---------------------------------------------------------------- the two ways to disagree

  lemma CastHas(rules: Rules, g: Block, stake: Tx, release: Tx, key: Bytes)
    requires Cast(rules, g, stake, release, key)
    ensures GenesisOk(g) && rules.validatorStake > 0
  {
  }

  lemma MinedSeal(rules: Rules, chain: seq<Block>, selected: seq<Tx>, addr: Address, seal: Seal)
    requires 0 < |chain| <= MAX_U64
    ensures var b := Mined(rules, chain, selected, addr, seal); b.header.timestamp == seal.time && b.header.difficulty == seal.difficulty
  {
  }

  lemma InStep(rules: Rules, g: Block, founders: set<Bytes>, chain: seq<Block>, staked: set<Bytes>)
    requires Holds(rules, g, chain, staked, rules.validatorStake) && rules.validatorStake > 0
    ensures Agrees(founders + staked, founders, rules.validatorStake, Fold(chain).utxos)
    ensures forall k :: Staked(Fold(chain).utxos, k, rules.validatorStake) <==> k in staked
  {
    hide ChainOk, Fold;
  }

  lemma IdleStakesNothing(rules: Rules, chain: seq<Block>, addr: Address, seal: Seal, key: Bytes)
    requires 0 < |chain| <= MAX_U64
    ensures !StakedBetween(chain + [Mined(rules, chain, [], addr, seal)], |chain|, |chain| + 1, key)
  {
    var b := Mined(rules, chain, [], addr, seal);
    KeysOfTxsIs(b.txs, key);
    KeysOfOutputsIs(b.txs[0].outputs, key);
    hide Mined;
    assert (chain + [b])[|chain|] == b;
  }

  /** A rebuild from `abandoned` to `target`, both chains of the rules and the second with more work, with
      handlers from height n on, takes a validator set that is in step to one that is not. */
  ghost predicate Diverges(rules: Rules, g: Block, founders: set<Bytes>, validators: set<Bytes>, abandoned: seq<Block>, target: seq<Block>, n: nat) {
    && ChainOk(rules, g, abandoned) && ChainOk(rules, g, target) && n <= |abandoned| && n <= |target| && abandoned[..n] == target[..n]
    && Fold(target).cumDiff > Fold(abandoned).cumDiff
    && Agrees(validators, founders, rules.validatorStake, Fold(abandoned).utxos)
    && !Agrees(SetAfter(validators, founders, rules.validatorStake, target, n, |target|), founders, rules.validatorStake, Fold(target).utxos)
  }

  lemma Disagrees(validators: set<Bytes>, founders: set<Bytes>, amount: nat, m: UtxoMap, key: Bytes)
    requires key !in founders && (key in validators <==> !Staked(m, key, amount))
    ensures !Agrees(validators, founders, amount, m)
  {
    hide Staked;
    assert key in validators || key !in validators;
  }

  lemma {:induction false} LeavesOver(rules: Rules, g: Block, founders: set<Bytes>, fork: seq<Block>, abandoned: seq<Block>, b: Block, key: Bytes)
    requires TxHashSound() && rules.validatorStake > 0 && fork <= abandoned && key !in founders
    requires Holds(rules, g, fork, {}, rules.validatorStake) && Holds(rules, g, abandoned, {key}, rules.validatorStake)
    requires Holds(rules, g, fork + [b], {}, rules.validatorStake) && !StakedBetween(fork + [b], |fork|, |fork| + 1, key)
    requires Fold(fork + [b]).cumDiff > Fold(abandoned).cumDiff
    ensures Diverges(rules, g, founders, founders + {key}, abandoned, fork + [b], |fork|)
    ensures key in SetAfter(founders + {key}, founders, rules.validatorStake, fork + [b], |fork|, |fork| + 1)
  {
    hide ChainOk, Fold, Holds, Agrees, Staked, SetAfter, StakedBetween;
    var target, n, validators := fork + [b], |fork|, founders + {key};
    InStep(rules, g, founders, fork, {});
    InStep(rules, g, founders, abandoned, {key});
    InStep(rules, g, founders, target, {});
    HoldsIs(rules, g, fork, {}, rules.validatorStake);
    HoldsIs(rules, g, abandoned, {key}, rules.validatorStake);
    HoldsIs(rules, g, target, {}, rules.validatorStake);
    assert target[..n] == fork;
    LeftoverStays(rules, g, target, n, validators, founders, Fold(abandoned).utxos, key);
    Disagrees(SetAfter(validators, founders, rules.validatorStake, target, n, n + 1), founders, rules.validatorStake, Fold(target).utxos, key);
  }

  lemma {:induction false} LeavesOut(rules: Rules, g: Block, founders: set<Bytes>, fork: seq<Block>, abandoned: seq<Block>, b: Block, key: Bytes)
    requires TxHashSound() && rules.validatorStake > 0 && 0 < |fork| && fork <= abandoned && key !in founders
    requires Holds(rules, g, abandoned, {}, rules.validatorStake)
    requires Holds(rules, g, fork + [b], {key}, rules.validatorStake) && !StakedBetween(fork + [b], |fork|, |fork| + 1, key)
    requires Fold(fork + [b]).cumDiff > Fold(abandoned).cumDiff
    ensures Diverges(rules, g, founders, founders, abandoned, fork + [b], |fork|)
    ensures key !in SetAfter(founders, founders, rules.validatorStake, fork + [b], |fork|, |fork| + 1)
  {
    hide ChainOk, Fold, Holds, Agrees, Staked, SetAfter, StakedBetween;
    var target, n := fork + [b], |fork|;
    InStep(rules, g, founders, abandoned, {});
    InStep(rules, g, founders, target, {key});
    HoldsIs(rules, g, abandoned, {}, rules.validatorStake);
    HoldsIs(rules, g, target, {key}, rules.validatorStake);
    assert founders + {} == founders;
    assert target[..|target|] == target;
    WithdrawnStaysOut(rules, g, target, n, founders, founders, Fold(abandoned).utxos, key);
    Disagrees(SetAfter(founders, founders, rules.validatorStake, target, n, n + 1), founders, rules.validatorStake, Fold(target).utxos, key);
  }

  /** A stake on the abandoned branch alone: its key stays in the set. */
  lemma {:induction false} LeftoverWitness(rules: Rules, g: Block, stake: Tx, release: Tx, key: Bytes, addr: Address, staking: Seal, idling: Seal,
                                           founders: set<Bytes>, before: seq<Bytes>, after: seq<Bytes>, hand: Bytes, blockTime: nat)
    requires TxHashSound() && Cast(rules, g, stake, release, key) && Hands(g, founders, key, before, after) && blockTime > 0
    requires g.header.timestamp < staking.time && g.header.timestamp < idling.time && staking.difficulty < idling.difficulty
    requires var b, c := Mined(rules, [g], [stake], addr, staking), Mined(rules, [g], [], addr, idling);
             Small(b) && Small(c) && Sealed(founders, before, after, b, hand, blockTime) && Sealed(founders, after, after, c, hand, blockTime)
    ensures var b, c := Mined(rules, [g], [stake], addr, staking), Mined(rules, [g], [], addr, idling);
            && HeaderFits(founders, before, [g], b, blockTime) && HeaderFits(founders, after, [g], c, blockTime)
            && Diverges(rules, g, founders, founders + {key}, [g] + [b], [g] + [c], 1)
            && key in SetAfter(founders + {key}, founders, rules.validatorStake, [g] + [c], 1, 2)
  {
    assert 2 <= MAX_U64;
    hide *;
    var b, c := Mined(rules, [g], [stake], addr, staking), Mined(rules, [g], [], addr, idling);
    MinedSeal(rules, [g], [stake], addr, staking);
    MinedSeal(rules, [g], [], addr, idling);
    FirstFits(g, founders, key, before, after, before, b, hand, blockTime);
    FirstFits(g, founders, key, before, after, after, c, hand, blockTime);
    LeftoverDiverges(rules, g, stake, release, key, addr, staking, idling, founders);
  }

  lemma {:induction false} LeftoverDiverges(rules: Rules, g: Block, stake: Tx, release: Tx, key: Bytes, addr: Address, staking: Seal, idling: Seal, founders: set<Bytes>)
    requires TxHashSound() && Cast(rules, g, stake, release, key) && key !in founders
    requires 0 < staking.time && 0 < idling.time && staking.difficulty < idling.difficulty <= 2
    requires Small(Mined(rules, [g], [stake], addr, staking)) && Small(Mined(rules, [g], [], addr, idling))
    ensures var b, c := Mined(rules, [g], [stake], addr, staking), Mined(rules, [g], [], addr, idling);
            && Diverges(rules, g, founders, founders + {key}, [g] + [b], [g] + [c], 1)
            && key in SetAfter(founders + {key}, founders, rules.validatorStake, [g] + [c], 1, 2)
  {
    var b, c := Mined(rules, [g], [stake], addr, staking), Mined(rules, [g], [], addr, idling);
    CastHas(rules, g, stake, release, key);
    hide *;
    StakedHolds(rules, g, stake, release, key, addr, staking);
    IdleHolds(rules, g, stake, release, key, addr, idling);
    GenesisHolds(rules, g, rules.validatorStake);
    IdleStakesNothing(rules, [g], addr, idling, key);
    LeavesOver(rules, g, founders, [g], [g] + [b], c, key);
  }

  /** A stake taken back on the abandoned branch alone: its key is missing. */
  lemma {:induction false} WithdrawnWitness(rules: Rules, g: Block, stake: Tx, release: Tx, key: Bytes, addr: Address, staking: Seal, leaving: Seal, idling: Seal,
                                            founders: set<Bytes>, before: seq<Bytes>, after: seq<Bytes>, first: Bytes, hand: Bytes, blockTime: nat)
    requires TxHashSound() && Cast(rules, g, stake, release, key) && Hands(g, founders, key, before, after) && blockTime > 0 && first != hand
    requires g.header.timestamp < staking.time && staking.time < leaving.time && staking.time < idling.time && leaving.difficulty < idling.difficulty
    requires var s := Mined(rules, [g], [stake], addr, staking);
             var b, c := Mined(rules, [g] + [s], [release], addr, leaving), Mined(rules, [g] + [s], [], addr, idling);
             && Small(s) && Small(b) && Small(c) && Sealed(founders, before, after, s, first, blockTime)
             && Sealed(founders, after, after, b, hand, blockTime) && Sealed(founders, before, after, c, hand, blockTime)
    ensures var s := Mined(rules, [g], [stake], addr, staking);
            var b, c := Mined(rules, [g] + [s], [release], addr, leaving), Mined(rules, [g] + [s], [], addr, idling);
            && HeaderFits(founders, before, [g], s, blockTime)
            && HeaderFits(founders, after, [g] + [s], b, blockTime) && HeaderFits(founders, before, [g] + [s], c, blockTime)
            && Diverges(rules, g, founders, founders, [g] + [s] + [b], [g] + [s] + [c], 2)
            && key !in SetAfter(founders, founders, rules.validatorStake, [g] + [s] + [c], 2, 3)
  {
    assert 2 <= MAX_U64;
    hide *;
    var s := Mined(rules, [g], [stake], addr, staking);
    var b, c := Mined(rules, [g] + [s], [release], addr, leaving), Mined(rules, [g] + [s], [], addr, idling);
    MinedSeal(rules, [g], [stake], addr, staking);
    MinedSeal(rules, [g] + [s], [release], addr, leaving);
    MinedSeal(rules, [g] + [s], [], addr, idling);
    FirstFits(g, founders, key, before, after, before, s, first, blockTime);
    SecondFits(g, founders, key, before, after, after, s, first, b, hand, blockTime);
    SecondFits(g, founders, key, before, after, before, s, first, c, hand, blockTime);
    WithdrawnDiverges(rules, g, stake, release, key, addr, staking, leaving, idling, founders);
  }

  lemma {:induction false} WithdrawnDiverges(rules: Rules, g: Block, stake: Tx, release: Tx, key: Bytes, addr: Address, staking: Seal, leaving: Seal, idling: Seal, founders: set<Bytes>)
    requires TxHashSound() && Cast(rules, g, stake, release, key) && key !in founders
    requires 0 < staking.time && 0 < leaving.time && 0 < idling.time && staking.difficulty <= 2 && leaving.difficulty < idling.difficulty <= 2
    requires var s := Mined(rules, [g], [stake], addr, staking); Small(s) && Small(Mined(rules, [g] + [s], [release], addr, leaving)) && Small(Mined(rules, [g] + [s], [], addr, idling))
    ensures var s := Mined(rules, [g], [stake], addr, staking);
            var b, c := Mined(rules, [g] + [s], [release], addr, leaving), Mined(rules, [g] + [s], [], addr, idling);
            && Diverges(rules, g, founders, founders, [g] + [s] + [b], [g] + [s] + [c], 2)
            && key !in SetAfter(founders, founders, rules.validatorStake, [g] + [s] + [c], 2, 3)
  {
    var fork := [g] + [Mined(rules, [g], [stake], addr, staking)];
    CastHas(rules, g, stake, release, key);
    hide *;
    SecondBlocksHold(rules, g, stake, release, key, addr, staking, leaving, idling);
    IdleStakesNothing(rules, fork, addr, idling, key);
    LeavesOut(rules, g, founders, fork, fork + [Mined(rules, fork, [release], addr, leaving)], Mined(rules, fork, [], addr, idling), key);
  }
}
