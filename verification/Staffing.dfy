/** The engine's validators in step with a chain: across a connected or reverted block, and at start-up. */
module Staffing {
  import opened Primitives
  import opened Types
  import opened Ledger
  import opened Weights
  import opened Replay
  import opened Economics
  import opened StateRules
  import opened BlockRules
  import opened Storage
  import opened UtxoStore
  import opened ChainSpec
  import opened ChainSteps
  import opened Poa
  import opened Signing
  import opened Validators

  /** Stake outputs govern the validator set: the handlers are connected, staking is on with one
      agreed amount, and no stored coinbase stakes. */
  ghost predicate Tracked(wired: bool, rules: Rules, minStake: nat, d: Disk) {
    && wired && rules.validatorStake > 0 && minStake == rules.validatorStake
    && forall h :: h in d.blocks ==> NoCoinbaseStake(d.blocks[h])
  }

  ghost predicate KeysAmong(keys: seq<Bytes>, founders: seq<Bytes>) {
    forall key :: key in keys ==> key in founders
  }

  /** Nothing on disk can change the validator set: the handlers are off, or only the genesis
      validators have ever staked, whom the handlers neither add nor remove. */
  ghost predicate FixedSet(wired: bool, founders: seq<Bytes>, d: Disk) {
    wired ==> forall h :: h in d.blocks ==> KeysAmong(KeysOfTxs(d.blocks[h].txs), founders)
  }

  /** Under staking the validator set is what the ledger says; with a fixed set the chain respects
      the signing window. */
  ghost predicate StaffOk(wired: bool, rules: Rules, minStake: nat, founders: seq<Bytes>, validators: seq<Bytes>, d: Disk, chain: seq<Block>) {
    && (Tracked(wired, rules, minStake, d) ==> Agrees(Elements(validators), Elements(founders), minStake, Fold(chain).utxos))
    && (FixedSet(wired, founders, d) ==> validators == founders && SignedChain(founders, chain))
  }

  // ---------------------------------------------------------------- a fixed set

  ghost predicate StakersAmong(m: UtxoMap, founders: seq<Bytes>) {
    forall op :: op in m && IsStakeScript(m[op].script) ==> m[op].script.data in founders
  }

  lemma {:induction false} StakersAfterTxs(m: UtxoMap, txs: seq<Tx>, height: nat, founders: seq<Bytes>)
    requires StakersAmong(m, founders) && KeysAmong(KeysOfTxs(txs), founders)
    ensures StakersAmong(ApplyTxs(m, txs, height), founders)
    decreases |txs|
  {
    if |txs| > 0 {
      var n := |txs| - 1;
      assert forall key :: key in KeysOfTxs(txs[..n]) ==> key in KeysOfTxs(txs);
      StakersAfterTxs(m, txs[..n], height, founders);
      forall i | 0 <= i < |txs[n].outputs| && IsStakeScript(txs[n].outputs[i].script)
        ensures txs[n].outputs[i].script.data in founders
      {
        var key := txs[n].outputs[i].script.data;
        KeysOfOutputsIs(txs[n].outputs, key);
        assert StakesTo(txs[n].outputs[i], key);
        assert key in KeysOfTxs(txs);
      }
    }
  }

  /** While only founders stake, every unspent stake output is a founder's. */
  lemma {:induction false} ChainStakersAmong(rules: Rules, g: Block, chain: seq<Block>, founders: seq<Bytes>)
    requires ChainOk(rules, g, chain)
    requires forall c :: c in chain ==> KeysAmong(KeysOfTxs(c.txs), founders)
    ensures StakersAmong(Fold(chain).utxos, founders)
    decreases |chain|
  {
    hide ChainOk, CanExtend, Acceptable, BlockOk, KeysAmong, StakersAmong, KeysOfTxs;
    LastBlock(rules, g, chain);
    var n := |chain| - 1;
    assert chain[n] in chain;
    if n == 0 {
      GenesisFold(g);
      NoStakers(founders);
      StakersAfterTxs(map[], g.txs, 0, founders);
    } else {
      assert forall c :: c in chain[..n] ==> c in chain;
      ChainStakersAmong(rules, g, chain[..n], founders);
      StakersAfterTxs(Fold(chain[..n]).utxos, chain[n].txs, chain[n].header.height, founders);
    }
  }

  lemma NoStakers(founders: seq<Bytes>)
    ensures StakersAmong(map[], founders)
  {
  }

  lemma {:induction false} RecordedStakersAmong(spent: seq<Utxo>, m: UtxoMap, ops: set<Outpoint>, founders: seq<Bytes>)
    requires Records(spent, m, ops) && StakersAmong(m, founders)
    ensures KeysAmong(KeysOfUtxos(spent), founders)
  {
    forall key | key in KeysOfUtxos(spent)
      ensures key in founders
    {
      KeysOfUtxosIs(spent, key);
    }
  }

  lemma FixedBlocks(founders: seq<Bytes>, g: Block, d: Disk, chain: seq<Block>)
    requires FixedSet(true, founders, d) && StoreOk(d, g) && HeightsAt(d, chain)
    ensures forall c :: c in chain ==> KeysAmong(KeysOfTxs(c.txs), founders)
  {
    hide StoreOk, HeightsAt, KeysAmong, KeysOfTxs;
    forall c | c in chain
      ensures KeysAmong(KeysOfTxs(c.txs), founders)
    {
      var i :| 0 <= i < |chain| && chain[i] == c;
      StoredUnderHash(d, g, chain, i);
    }
  }

  /** On a fixed set the keys a block stakes and unstakes are all founders'. */
  lemma {:induction false} FixedKeys(rules: Rules, g: Block, founders: seq<Bytes>, d: Disk, chain: seq<Block>, b: Block, spent: seq<Utxo>)
    requires TxHashSound() && ChainOk(rules, g, chain) && CanExtend(rules, chain, b)
    requires FixedSet(true, founders, d) && StoreOk(d, g) && HeightsAt(d, chain)
    requires b.Hash() in d.blocks && d.blocks[b.Hash()] == b
    requires spent == SpentByTxs(Fold(chain).utxos, b.txs, b.header.height)
    ensures KeysAmong(KeysOfTxs(b.txs), founders) && KeysAmong(KeysOfUtxos(spent), founders)
  {
    hide ChainOk, CanExtend, Acceptable, BlockOk, StoreOk, HeightsAt, KeysAmong, KeysOfTxs, Fold, Snapshot, StakersAmong;
    FixedBlocks(founders, g, d, chain);
    ChainStakersAmong(rules, g, chain, founders);
    NextBlockFresh(rules, g, chain, b);
    SpentAreOriginal(Fold(chain).utxos, b.txs, b.header.height);
    RecordedStakersAmong(spent, Fold(chain).utxos, AllSpends(b.txs), founders);
  }

  lemma FixedBefore(wired: bool, founders: seq<Bytes>, before: Disk, after: Disk)
    requires FixedSet(wired, founders, after) && forall h :: h in before.blocks ==> h in after.blocks && after.blocks[h] == before.blocks[h]
    ensures FixedSet(wired, founders, before)
  {
    hide KeysAmong, KeysOfTxs;
  }

  // ---------------------------------------------------------------- across a block

  lemma TrackedBlocks(wired: bool, rules: Rules, g: Block, minStake: nat, d: Disk, chain: seq<Block>)
    requires Tracked(wired, rules, minStake, d) && StoreOk(d, g) && HeightsAt(d, chain)
    ensures forall c :: c in chain ==> NoCoinbaseStake(c)
  {
    hide StoreOk, HeightsAt;
    forall c | c in chain
      ensures NoCoinbaseStake(c)
    {
      var i :| 0 <= i < |chain| && chain[i] == c;
      StoredUnderHash(d, g, chain, i);
    }
  }

  /** The validators after a connected block, from the sets the handlers left. */
  lemma StaffAfterConnect(wired: bool, rules: Rules, g: Block, minStake: nat, founders: seq<Bytes>,
                          before: Disk, validators: seq<Bytes>, after: Disk, validators': seq<Bytes>, chain: seq<Block>, b: Block, spent: seq<Utxo>)
    requires TxHashSound() && ChainOk(rules, g, chain) && CanExtend(rules, chain, b) && b.header.height == |chain|
    requires StaffOk(wired, rules, minStake, founders, validators, before, chain)
    requires HeightsAt(before, chain) && StoreOk(after, g) && HeightsAt(after, chain + [b])
    requires after.blocks == before.blocks[b.Hash() := b] && Storable(before, b)
    requires spent == UndoOf(chain + [b], |chain|).spent
    requires SignerOf(validators, b.header).Some? && SigningOk(validators, before, b.header)
    requires !wired || (KeysAmong(KeysOfTxs(b.txs), founders) && KeysAmong(KeysOfUtxos(spent), founders)) ==> validators' == validators
    requires wired ==> Elements(validators') ==
                       Dropped(Elements(validators) + Elements(KeysOfTxs(b.txs)), Elements(founders), minStake, Fold(chain + [b]).utxos, KeysOfUtxos(spent))
    ensures StaffOk(wired, rules, minStake, founders, validators', after, chain + [b])
  {
    hide *;
    StaffIs(wired, rules, minStake, founders, validators', after, chain + [b]);
    if FixedSet(wired, founders, after) {
      BlocksKept(before, after, b);
      FixedBefore(wired, founders, before, after);
      SignedGrowsIn(wired, rules, minStake, founders, before, validators, chain, b);
      if wired {
        FixedKeysOn(rules, g, founders, after, chain, b, spent);
      }
    }
    if Tracked(wired, rules, minStake, after) {
      TrackedBefore(wired, rules, minStake, before, after, b);
      AgreesGrows(wired, rules, g, minStake, founders, before, validators, after, validators', chain, b, spent);
    }
  }

  lemma StaffIs(wired: bool, rules: Rules, minStake: nat, founders: seq<Bytes>, validators: seq<Bytes>, d: Disk, chain: seq<Block>)
    ensures StaffOk(wired, rules, minStake, founders, validators, d, chain) <==>
            && (Tracked(wired, rules, minStake, d) ==> Agrees(Elements(validators), Elements(founders), minStake, Fold(chain).utxos))
            && (FixedSet(wired, founders, d) ==> validators == founders && SignedChain(founders, chain))
    ensures Tracked(wired, rules, minStake, d) ==> wired
  {
  }

  lemma BlocksKept(before: Disk, after: Disk, b: Block)
    requires after.blocks == before.blocks[b.Hash() := b] && Storable(before, b)
    ensures forall h :: h in before.blocks ==> h in after.blocks && after.blocks[h] == before.blocks[h]
  {
  }

  lemma FixedKeysOn(rules: Rules, g: Block, founders: seq<Bytes>, after: Disk, chain: seq<Block>, b: Block, spent: seq<Utxo>)
    requires TxHashSound() && ChainOk(rules, g, chain) && CanExtend(rules, chain, b)
    requires FixedSet(true, founders, after) && StoreOk(after, g) && HeightsAt(after, chain + [b])
    requires spent == UndoOf(chain + [b], |chain|).spent
    ensures KeysAmong(KeysOfTxs(b.txs), founders) && KeysAmong(KeysOfUtxos(spent), founders)
  {
    hide ChainOk, CanExtend, Acceptable, StoreOk, HeightsAt, KeysAmong, KeysOfTxs, Fold, FixedSet;
    StoredUnderHash(after, g, chain + [b], |chain|);
    HeightsPrefix(after, chain + [b], |chain|);
    assert (chain + [b])[..|chain|] == chain;
    FixedKeys(rules, g, founders, after, chain, b, spent);
  }

  lemma SignedGrowsIn(wired: bool, rules: Rules, minStake: nat, founders: seq<Bytes>, before: Disk, validators: seq<Bytes>, chain: seq<Block>, b: Block)
    requires FixedSet(wired, founders, before) && StaffOk(wired, rules, minStake, founders, validators, before, chain)
    requires HeightsAt(before, chain) && b.header.height == |chain|
    requires SignerOf(validators, b.header).Some? && SigningOk(validators, before, b.header)
    ensures validators == founders && SignedChain(founders, chain + [b])
  {
    SignedGrows(validators, before, chain, b);
  }

  lemma TrackedBefore(wired: bool, rules: Rules, minStake: nat, before: Disk, after: Disk, b: Block)
    requires Tracked(wired, rules, minStake, after) && after.blocks == before.blocks[b.Hash() := b] && Storable(before, b)
    ensures Tracked(wired, rules, minStake, before)
  {
    hide NoCoinbaseStake;
    forall h | h in before.blocks
      ensures NoCoinbaseStake(before.blocks[h])
    {
      assert NoCoinbaseStake(after.blocks[h]);
    }
  }

  lemma AgreesGrows(wired: bool, rules: Rules, g: Block, minStake: nat, founders: seq<Bytes>,
                    before: Disk, validators: seq<Bytes>, after: Disk, validators': seq<Bytes>, chain: seq<Block>, b: Block, spent: seq<Utxo>)
    requires TxHashSound() && ChainOk(rules, g, chain) && CanExtend(rules, chain, b)
    requires wired && Tracked(wired, rules, minStake, before) && Tracked(wired, rules, minStake, after)
    requires StaffOk(wired, rules, minStake, founders, validators, before, chain)
    requires StoreOk(after, g) && HeightsAt(after, chain + [b])
    requires spent == UndoOf(chain + [b], |chain|).spent
    requires Elements(validators') == Dropped(Elements(validators) + Elements(KeysOfTxs(b.txs)), Elements(founders), minStake, Fold(chain + [b]).utxos, KeysOfUtxos(spent))
    ensures Agrees(Elements(validators'), Elements(founders), minStake, Fold(chain + [b]).utxos)
  {
    hide ChainOk, CanExtend, Acceptable, StoreOk, HeightsAt, Agrees, Dropped, Fold, NoCoinbaseStake;
    TrackedBlocks(wired, rules, g, minStake, after, chain + [b]);
    assert (chain + [b])[..|chain|] == chain;
    ConnectKeepsAgreement(rules, g, chain, b, Elements(validators), Elements(founders), spent);
  }

  lemma StaffAfterDisconnect(wired: bool, rules: Rules, g: Block, minStake: nat, founders: seq<Bytes>,
                             before: Disk, validators: seq<Bytes>, after: Disk, validators': seq<Bytes>, chain: seq<Block>, spent: seq<Utxo>)
    requires TxHashSound() && ChainOk(rules, g, chain) && |chain| > 1
    requires StaffOk(wired, rules, minStake, founders, validators, before, chain)
    requires HeightsAt(before, chain) && StoreOk(before, g)
    requires after.blocks == before.blocks
    requires spent == UndoOf(chain, |chain| - 1).spent
    requires !wired || (KeysAmong(KeysOfTxs(chain[|chain| - 1].txs), founders) && KeysAmong(KeysOfUtxos(spent), founders)) ==> validators' == validators
    requires wired ==> Elements(validators') ==
                       Dropped(Elements(validators), Elements(founders), minStake, Fold(chain[..|chain| - 1]).utxos, KeysOfTxs(chain[|chain| - 1].txs)) + Elements(KeysOfUtxos(spent))
    ensures StaffOk(wired, rules, minStake, founders, validators', after, chain[..|chain| - 1])
  {
    hide ChainOk, CanExtend, Acceptable, BlockOk, StateValid, StoreOk, HeightsAt, Agrees, SignedChain, Dropped, Fold, NoCoinbaseStake, FixedSet, KeysAmong, KeysOfTxs, KeysOfUtxos;
    var n := |chain| - 1;
    LastBlock(rules, g, chain);
    if FixedSet(wired, founders, after) {
      SameBlocksFixed(wired, founders, before, after);
      SignedPrefix(founders, chain, n);
      if wired {
        assert chain[..n] + [chain[n]] == chain;
        FixedKeysOn(rules, g, founders, before, chain[..n], chain[n], spent);
      }
    }
    if Tracked(wired, rules, minStake, after) {
      assert Tracked(wired, rules, minStake, before);
      TrackedBlocks(wired, rules, g, minStake, before, chain);
      RevertKeepsAgreement(rules, g, chain[..n], chain[n], Elements(validators), Elements(founders), spent);
    }
  }

  lemma SameBlocksFixed(wired: bool, founders: seq<Bytes>, d: Disk, d': Disk)
    requires d'.blocks == d.blocks
    ensures FixedSet(wired, founders, d) <==> FixedSet(wired, founders, d')
  {
  }

  lemma UnwiredIsFixed(wired: bool, founders: seq<Bytes>, d: Disk)
    ensures !wired ==> FixedSet(wired, founders, d)
  {
  }

  lemma FixedAt(wired: bool, founders: seq<Bytes>, d: Disk, h: nat)
    requires FixedSet(wired, founders, d) && d.BlockAt(h).Some?
    ensures wired ==> KeysAmong(KeysOfTxs(d.BlockAt(h).value.txs), founders)
  {
  }

  lemma ElementsHold(after: seq<Bytes>, before: seq<Bytes>, key: Bytes)
    requires Elements(after) == Elements(before) + {key}
    ensures forall k :: k in after <==> k in before || k == key
  {
    assert forall k :: k in after <==> k in Elements(after);
    assert forall k :: k in before <==> k in Elements(before);
  }

  /** Some unspent output stakes for `key`. */
  ghost predicate Listed(m: UtxoMap, key: Bytes) {
    exists op :: op in m && IsStakeScript(m[op].script) && m[op].script.data == key
  }

  lemma {:induction false} StakedIsListed(m: UtxoMap, key: Bytes, minStake: nat)
    requires Staked(m, key, minStake) && minStake > 0
    ensures Listed(m, key)
  {
    MapSumPositive(m, Lift(StakeOf(key)));
    var op :| op in m && Lift(StakeOf(key))(m[op]) > 0;
    assert Lift(StakeOf(key))(m[op]) == StakeOf(key)(AsOutput(m[op]));
  }

  lemma {:induction false} NoStakeAtGenesis(g: Block, key: Bytes)
    requires GenesisOk(g)
    ensures Total(Fold([g]).utxos, StakeOf(key)) == 0
  {
    GenesisTotal(g, StakeOf(key));
    var outs := g.txs[0].outputs;
    KeysOfOutputsIs(outs, key);
    assert forall i :: 0 <= i < |outs| ==> !StakesTo(outs[i], key);
  }

  /** The validators recovered on restart are those the ledger demands. */
  lemma {:induction false} StaffOnStart(wired: bool, rules: Rules, g: Block, minStake: nat, founders: seq<Bytes>, validators: seq<Bytes>, d: Disk, chain: seq<Block>)
    requires ChainOk(rules, g, chain) && |chain| > 0 && d.utxos == Fold(chain).utxos
    requires FixedSet(wired, founders, d) ==> validators == founders && SignedChain(founders, chain)
    requires wired ==> forall key :: key in validators <==>
                         key in founders || (|chain| > 1 && Listed(d.utxos, key) && Staked(d.utxos, key, minStake))
    ensures StaffOk(wired, rules, minStake, founders, validators, d, chain)
  {
    hide ChainOk, SignedChain, Fold, Listed, NoCoinbaseStake, FixedSet;
    if Tracked(wired, rules, minStake, d) {
      forall key
        ensures key in Elements(validators) <==> key in Elements(founders) || Staked(Fold(chain).utxos, key, minStake)
      {
        if Staked(Fold(chain).utxos, key, minStake) {
          StakedIsListed(d.utxos, key, minStake);
          if |chain| == 1 {
            UnstakedAtFirst(rules, g, chain, key);
          }
        }
      }
    }
  }

  lemma UnstakedAtFirst(rules: Rules, g: Block, chain: seq<Block>, key: Bytes)
    requires ChainOk(rules, g, chain) && |chain| == 1
    ensures Total(Fold(chain).utxos, StakeOf(key)) == 0
  {
    hide Fold, StakeOf, CanExtend, Acceptable;
    OnlyGenesis(rules, g, chain);
    NoStakeAtGenesis(g, key);
  }

  lemma OnlyGenesis(rules: Rules, g: Block, chain: seq<Block>)
    requires ChainOk(rules, g, chain) && |chain| == 1
    ensures chain == [g] && GenesisOk(g)
  {
  }

  /** What must hold of the stakes for a rebuild to leave the right set: see StakesBetween. */
  ghost predicate StakesFollow(wired: bool, rules: Rules, minStake: nat, founders: seq<Bytes>, d: Disk, start: UtxoMap, target: seq<Block>, n: nat)
    requires n <= |target|
  {
    Tracked(wired, rules, minStake, d) ==> StakesBetween(Elements(founders), minStake, start, target, n)
  }

  /** After a rebuild the engine is in step with the target exactly when the stakes follow. */
  lemma {:induction false} StaffAfterRebuild(wired: bool, rules: Rules, lawful: Rules, g: Block, minStake: nat, founders: seq<Bytes>, validators: seq<Bytes>,
                                             before: set<Bytes>, d: Disk, start: UtxoMap, target: seq<Block>, n: nat)
    requires TxHashSound() && ChainOk(lawful, g, target) && lawful.validatorStake == rules.validatorStake
    requires StoreOk(d, g) && HeightsAt(d, target) && 0 < n <= |target|
    requires FixedSet(wired, founders, d) ==> validators == founders && SignedChain(founders, target)
    requires Tracked(wired, rules, minStake, d) ==> Agrees(before, Elements(founders), minStake, start)
    requires wired ==> Elements(validators) == SetAfter(before, Elements(founders), minStake, target, n, |target|)
    ensures StaffOk(wired, rules, minStake, founders, validators, d, target) <==> StakesFollow(wired, rules, minStake, founders, d, start, target, n)
  {
    hide *;
    StaffIs(wired, rules, minStake, founders, validators, d, target);
    StakesFollowIs(wired, rules, minStake, founders, d, start, target, n);
    if Tracked(wired, rules, minStake, d) {
      TrackedMeans(wired, rules, minStake, d);
      TrackedBlocks(wired, rules, g, minStake, d, target);
      RebuildAgreesExactlyWhen(lawful, g, target, n, before, Elements(founders), start);
    }
  }

  lemma TrackedMeans(wired: bool, rules: Rules, minStake: nat, d: Disk)
    requires Tracked(wired, rules, minStake, d)
    ensures wired && rules.validatorStake > 0 && minStake == rules.validatorStake
  {
  }

  lemma StakesFollowIs(wired: bool, rules: Rules, minStake: nat, founders: seq<Bytes>, d: Disk, start: UtxoMap, target: seq<Block>, n: nat)
    requires n <= |target|
    ensures StakesFollow(wired, rules, minStake, founders, d, start, target, n) <==>
            (Tracked(wired, rules, minStake, d) ==> StakesBetween(Elements(founders), minStake, start, target, n))
  {
  }

  lemma {:induction false} OnlyStakersStaked(m: UtxoMap, founders: seq<Bytes>, key: Bytes, minStake: nat)
    requires StakersAmong(m, founders) && key !in founders && minStake > 0
    ensures !Staked(m, key, minStake)
  {
    if Staked(m, key, minStake) {
      StakedIsListed(m, key, minStake);
      assert false;
    }
  }

  /** While only founders stake, they always do. */
  lemma {:induction false} FixedFollows(wired: bool, rules: Rules, lawful: Rules, g: Block, minStake: nat, founders: seq<Bytes>, d: Disk, start: UtxoMap, target: seq<Block>, n: nat)
    requires ChainOk(lawful, g, target) && StoreOk(d, g) && HeightsAt(d, target) && n <= |target|
    requires FixedSet(wired, founders, d) && (wired ==> StakersAmong(start, founders))
    ensures StakesFollow(wired, rules, minStake, founders, d, start, target, n)
  {
    hide *;
    StakesFollowIs(wired, rules, minStake, founders, d, start, target, n);
    if Tracked(wired, rules, minStake, d) {
      TrackedMeans(wired, rules, minStake, d);
      FixedBlocks(founders, g, d, target);
      ChainStakersAmong(lawful, g, target, founders);
      FollowsTrivially(founders, minStake, start, target, n);
    }
  }

  lemma FollowsTrivially(founders: seq<Bytes>, minStake: nat, start: UtxoMap, target: seq<Block>, n: nat)
    requires n <= |target| && minStake > 0 && StakersAmong(start, founders) && StakersAmong(Fold(target).utxos, founders)
    ensures StakesBetween(Elements(founders), minStake, start, target, n)
  {
    hide StakersAmong, Fold, Staked, StakedBetween;
    assert target[..|target|] == target;
    forall key | key !in Elements(founders)
      ensures !Staked(start, key, minStake) && !StakedAt(target, |target|, key, minStake)
    {
      OnlyStakersStaked(start, founders, key, minStake);
      OnlyStakersStaked(Fold(target).utxos, founders, key, minStake);
    }
  }

  lemma SetAfterStep(staff: set<Bytes>, genesis: set<Bytes>, minStake: nat, target: seq<Block>, n: nat, h: nat)
    requires h < |target|
    ensures h < n ==> SetAfter(staff, genesis, minStake, target, n, h + 1) == SetAfter(staff, genesis, minStake, target, n, h)
    ensures h >= n ==> SetAfter(staff, genesis, minStake, target, n, h + 1) ==
                       Dropped(SetAfter(staff, genesis, minStake, target, n, h) + Elements(KeysOfTxs(target[h].txs)), genesis, minStake, Fold(target[..h + 1]).utxos, SpentKeys(target, h))
  {
  }

  lemma SetAfterNone(staff: set<Bytes>, genesis: set<Bytes>, minStake: nat, target: seq<Block>, n: nat)
    ensures SetAfter(staff, genesis, minStake, target, n, 0) == staff
  {
  }

  lemma SpentKeysAre(target: seq<Block>, h: nat, spent: seq<Utxo>)
    requires h < |target| && spent == UndoOf(target[..h] + [target[h]], h).spent
    ensures SpentKeys(target, h) == KeysOfUtxos(spent)
  {
    assert (target[..h] + [target[h]])[..h] == target[..h];
  }

  lemma SameBlocksTracked(wired: bool, rules: Rules, minStake: nat, d: Disk, d': Disk)
    requires d'.blocks == d.blocks
    ensures Tracked(wired, rules, minStake, d) <==> Tracked(wired, rules, minStake, d')
  {
  }

  lemma DroppedNothing(validators: set<Bytes>, genesis: set<Bytes>, minStake: nat, m: UtxoMap, keys: seq<Bytes>)
    requires Agrees(validators, genesis, minStake, m)
    ensures Dropped(validators, genesis, minStake, m, keys) == validators
  {
  }

  lemma GenesisUnsigned(rules: Rules, g: Block, d: Disk, chain: seq<Block>)
    requires ChainOk(rules, g, chain) && HeightsAt(d, chain)
    ensures d.BlockAt(0).Some? ==> d.BlockAt(0).value.header.validatorSig == []
  {
    hide CanExtend, Acceptable;
    assert d.BlockAt(0) == Some(chain[0]);
  }

  lemma NoWindow(validators: seq<Bytes>, d: Disk, height: nat, key: Bytes)
    requires SigningWindow(|validators|) == 0
    ensures !SignedRecently(validators, d, height, key)
  {
  }

  lemma SignedAt(validators: seq<Bytes>, d: Disk, height: nat, key: Bytes, k: nat)
    requires 1 <= k < height && height - k < SigningWindow(|validators|)
    requires d.BlockAt(k).Some? && SignerOf(validators, d.BlockAt(k).value.header) == Some(key)
    ensures SignedRecently(validators, d, height, key)
  {
    assert !OtherSigner(validators, d, k, Some(key));
  }

  lemma NobodyRecently(validators: seq<Bytes>, d: Disk, height: nat, key: Bytes)
    requires forall k: nat :: 1 <= k < height && height - 1 - k < SigningWindow(|validators|) - 1 ==> OtherSigner(validators, d, k, Some(key))
    ensures !SignedRecently(validators, d, height, key)
  {
  }

  lemma DroppedStep(validators: set<Bytes>, genesis: set<Bytes>, minStake: nat, m: UtxoMap, keys: seq<Bytes>, i: nat)
    requires i < |keys|
    ensures Dropped(validators, genesis, minStake, m, keys[..i + 1]) ==
            Dropped(validators, genesis, minStake, m, keys[..i]) - (if keys[i] !in genesis && !Staked(m, keys[i], minStake) then {keys[i]} else {})
  {
    assert keys[..i + 1] == keys[..i] + [keys[i]];
  }

  lemma {:induction false} OutputKeyLengths(outs: seq<Output>)
    ensures forall key :: key in KeysOfOutputs(outs) ==> |key| == PUBKEY_SIZE
  {
    if |outs| > 0 {
      OutputKeyLengths(outs[..|outs| - 1]);
    }
  }

  lemma {:induction false} TxKeyLengths(txs: seq<Tx>)
    ensures forall key :: key in KeysOfTxs(txs) ==> |key| == PUBKEY_SIZE
  {
    if |txs| > 0 {
      TxKeyLengths(txs[..|txs| - 1]);
      OutputKeyLengths(txs[|txs| - 1].outputs);
    }
  }

  lemma {:induction false} UtxoKeyLengths(us: seq<Utxo>)
    ensures forall key :: key in KeysOfUtxos(us) ==> |key| == PUBKEY_SIZE
  {
    if |us| > 0 {
      UtxoKeyLengths(us[..|us| - 1]);
    }
  }

  lemma KeyLengths(txs: seq<Tx>, us: seq<Utxo>)
    ensures forall key :: key in KeysOfTxs(txs) ==> |key| == PUBKEY_SIZE
    ensures forall key :: key in KeysOfUtxos(us) ==> |key| == PUBKEY_SIZE
  {
    TxKeyLengths(txs);
    UtxoKeyLengths(us);
  }
}
