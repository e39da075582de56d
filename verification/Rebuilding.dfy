/** Replaying a stored chain from genesis: the proof steps of RebuildUTXOs, rebuildReorg and New. */
module Rebuilding {
  import opened Primitives
  import opened Types
  import opened Ledger
  import opened Weights
  import opened TxRules
  import opened BlockRules
  import opened StateRules
  import opened Replay
  import opened Economics
  import opened Storage
  import opened UtxoStore
  import opened BlockStore
  import opened ChainSpec
  import opened ChainSteps
  import opened BlockEffects
  import opened Genesis
  import opened Branches

  /** A chain object before SetConsensusRules: no caps, no subsidy, no staking. */
  const NO_RULES: Rules := Rules(0, 0, 0, 0, false, (o: Output, existing: nat, pending: nat) => true)

  lemma DiskParts(rules: Rules, g: Block, d: Disk, chain: seq<Block>)
    requires DiskAt(rules, g, d, chain) || Recoverable(rules, g, d, chain)
    ensures StoreOk(d, g) && ChainOk(rules, g, chain) && HeightsAt(d, chain) && |chain| > 0 && TipIs(d, chain)
    ensures DiskAt(rules, g, d, chain) <==> d.checkpoint.None?
    ensures d.checkpoint.None? ==> LedgerAt(d, chain) && UndosRight(d, chain) && TotalsAt(d, chain) && d.utxos == Fold(chain).utxos && IndexesOk(d)
    ensures d.checkpoint.Some? ==> Recoverable(rules, g, d, chain)
    ensures d.checkpoint.None? ==> SupplyOf(d) == Fold(chain).supply && CumDiffOf(d) == Fold(chain).cumDiff
  {
  }

  lemma LoadedTip(rules: Rules, g: Block, d: Disk, chain: seq<Block>)
    requires StoreOk(d, g) && ChainOk(rules, g, chain) && HeightsAt(d, chain) && |chain| > 0 && TipIs(d, chain)
    ensures d.tip == Some(chain[|chain| - 1].Hash()) && d.height == Some(|chain| - 1)
    ensures chain[|chain| - 1].Hash() in d.blocks && d.blocks[chain[|chain| - 1].Hash()] == chain[|chain| - 1]
    ensures d.BlockAt(0) == Some(g)
  {
    StoredUnderHash(d, g, chain, |chain| - 1);
    assert d.BlockAt(0) == Some(chain[0]);
  }

  lemma NoRulesHarmless(actual: Rules, g: Block)
    ensures CapHarmless(NO_RULES, actual, g)
  {
  }

  lemma ChainFits(rules: Rules, g: Block, chain: seq<Block>)
    requires ChainOk(rules, g, chain)
    ensures Fits(Fold(chain))
  {
    hide CanExtend, Acceptable, StateValid, BlockOk;
    LastBlock(rules, g, chain);
    if |chain| == 1 {
      GenesisTotal(g, ValueOf);
    } else {
      ExtensionFits(rules, chain[..|chain| - 1], chain[|chain| - 1]);
    }
  }

  lemma SameHeights(d: Disk, d': Disk, chain: seq<Block>)
    requires d'.heights == d.heights
    ensures HeightsExact(d, chain) ==> HeightsExact(d', chain)
  {
  }

  lemma BlockAtHeight(d: Disk, chain: seq<Block>, h: nat)
    requires HeightsAt(d, chain) && h < |chain|
    ensures d.BlockAt(h) == Some(chain[h])
  {
  }

  /** `b` is the next block to replay: genesis first, then blocks that follow by the rules. */
  ghost predicate Replayable(actual: Rules, g: Block, replayed: seq<Block>, b: Block) {
    if |replayed| == 0 then b == g && GenesisOk(g) else ChainOk(actual, g, replayed) && Acceptable(actual, replayed, b)
  }

  /** The supply cap in force while replaying is off, as it is before SetConsensusRules, or is the
      actual one and genesis fits under it. */
  ghost predicate CapHarmless(rules: Rules, actual: Rules, g: Block) {
    rules.maxSupply == 0 || (rules.maxSupply == actual.maxSupply && |g.txs| > 0 && OutSum(g.txs[0], ValueOf) <= rules.maxSupply)
  }

  lemma GenesisRewardIsTotal(g: Block)
    requires GenesisOk(g)
    ensures RewardSumsFit(map[], g.txs) && Minted(map[], g.txs) == OutSum(g.txs[0], ValueOf) && Reward(map[], g) == Minted(map[], g.txs)
  {
  }

  /** The supply that a replay arrives at: every reward cut down to what the cap still allows. */
  ghost function CappedSupply(maxSupply: nat, chain: seq<Block>): nat {
    if |chain| == 0 then 0 else
      var n := |chain| - 1;
      var before := CappedSupply(maxSupply, chain[..n]);
      before + Capped(maxSupply, before, Reward(Fold(chain[..n]).utxos, chain[n]))
  }

  lemma CappedStep(maxSupply: nat, chain: seq<Block>, b: Block)
    ensures var s := CappedSupply(maxSupply, chain);
            CappedSupply(maxSupply, chain + [b]) == s + Capped(maxSupply, s, Reward(Fold(chain).utxos, b))
    ensures CappedSupply(maxSupply, []) == 0
  {
    assert (chain + [b])[..|chain|] == chain;
  }

  lemma {:induction false} CappedBelow(maxSupply: nat, chain: seq<Block>)
    ensures CappedSupply(maxSupply, chain) <= Fold(chain).supply
    ensures maxSupply == 0 ==> CappedSupply(maxSupply, chain) == Fold(chain).supply
    decreases |chain|
  {
    if |chain| > 0 {
      var n := |chain| - 1;
      CappedBelow(maxSupply, chain[..n]);
    }
  }

  /** On a chain whose blocks keep the cap, and whose genesis fits under it, it cuts nothing. */
  lemma {:induction false} HarmlessSupply(rules: Rules, actual: Rules, g: Block, chain: seq<Block>)
    requires ChainOk(actual, g, chain) && CapHarmless(rules, actual, g)
    ensures CappedSupply(rules.maxSupply, chain) == Fold(chain).supply
    decreases |chain|
  {
    hide ChainOk, CanExtend, Acceptable, BlockOk, StateValid, Fold, CappedSupply;
    LastBlock(actual, g, chain);
    var n := |chain| - 1;
    if rules.maxSupply == 0 {
      CappedBelow(0, chain);
    } else if n == 0 {
      CappedStep(rules.maxSupply, [], g);
      assert [] + [g] == [g];
      FirstReward(g);
      GenesisRewardIsTotal(g);
    } else {
      var before, b := chain[..n], chain[n];
      HarmlessSupply(rules, actual, g, before);
      CappedStep(rules.maxSupply, before, b);
      var s := Fold(before);
      CapIsNoOp(actual, s.utxos, s.supply, s.registered, b);
      ValidHasTxs(actual, s, b);
      AdvanceSupply(s, b);
    }
  }

  lemma AdvanceSupply(s: State, b: Block)
    ensures Advance(s, b).supply == s.supply + Reward(s.utxos, b)
  {
  }

  lemma FirstReward(g: Block)
    ensures Fold([]).utxos == map[] && Fold([g]).supply == Reward(map[], g)
  {
    assert [g][..0] == [];
  }

  /** A replayed block applies cleanly, and a harmless cap does not touch its reward. */
  lemma ReplayFacts(rules: Rules, actual: Rules, g: Block, replayed: seq<Block>, b: Block)
    requires TxHashSound() && Replayable(actual, g, replayed, b)
    ensures var s := Fold(replayed);
            && |b.txs| > 0 && Snapshot(s.utxos, b.txs) && AllDistinctSpends(b.txs) && RewardSumsFit(s.utxos, b.txs)
            && Minted(s.utxos, b.txs) == Reward(s.utxos, b)
            && (CapHarmless(rules, actual, g) ==> Capped(rules.maxSupply, s.supply, Reward(s.utxos, b)) == Reward(s.utxos, b))
            && Fold(replayed + [b]) == State(ApplyBlock(s.utxos, b), s.supply + Reward(s.utxos, b), s.cumDiff + b.header.difficulty, s.registered + Registrations(b))
  {
    FoldStep(replayed, b);
    if |replayed| == 0 {
      GenesisProvenance(g);
      GenesisRewardIsTotal(g);
      assert DistinctSpends(g.txs[0].inputs);
    } else {
      hide ChainOk, Snapshot, BlockOk, StateValid, Tagged;
      AcceptableFresh(actual, g, replayed, b);
      ValidSpendsDistinct(b);
      var s := Fold(replayed);
      ValidRewardFits(actual, s.utxos, s.supply, s.registered, b);
      CapIsNoOp(actual, s.utxos, s.supply, s.registered, b);
      ValidHasTxs(actual, s, b);
    }
  }

  lemma FitsIs(s: State)
    ensures Fits(s) <==> s.supply <= MAX_U64 && s.cumDiff <= MAX_U64
  {
  }

  lemma ReplayBase(rules: Rules, g: Block, d: Disk, chain: seq<Block>, base: seq<Block>)
    requires ChainOk(rules, g, chain) && HeightsAt(d, chain) && 0 < |base| <= |chain| && base == chain[..|base|]
    ensures ChainOk(rules, g, base) && HeightsAt(d, base)
  {
    hide ChainOk;
    ChainPrefix(rules, g, chain, |base|);
    HeightsPrefix(d, chain, |base|);
  }

  lemma HeightsFit(d: Disk, chain: seq<Block>, target: seq<Block>)
    requires HeightsExact(d, chain) && |target| >= |chain|
    ensures forall h :: h in d.heights ==> h < |target|
  {
  }

  lemma BlockHasTxs(b: Block)
    requires BlockOk(b)
    ensures |b.txs| > 0
  {
  }

  /** Wherever rebuildReorg validates a block above the fork, the supply it checks the cap against is
      not below the true one; and genesis fits under the cap. */
  ghost predicate SupplyCovers(rules: Rules, g: Block, target: seq<Block>, fork: nat, stale: nat) {
    rules.maxSupply == 0 ||
    (&& |g.txs| > 0 && OutSum(g.txs[0], ValueOf) <= rules.maxSupply
     && forall h :: fork < h < |target| ==> Fold(target[..h]).supply <= stale)
  }

  /** A replay can be followed to its end: the stale supply covers the true one wherever it counts, or
      what the blocks of the target mint fits in uint64. */
  ghost predicate Followable(rules: Rules, g: Block, target: seq<Block>, fork: nat, stale: nat) {
    SupplyCovers(rules, g, target, fork, stale) || Fits(Fold(target))
  }

  lemma FollowableMeans(rules: Rules, g: Block, target: seq<Block>, fork: nat, stale: nat)
    ensures Followable(rules, g, target, fork, stale) <==> SupplyCovers(rules, g, target, fork, stale) || Fits(Fold(target))
  {
  }

  /** A block that passes the check against a stale supply passes the check against the true one
      exactly when what it mints is still allowed then: always, if the stale supply is not below. */
  lemma {:induction false} StaleSupplyExactlyWhen(rules: Rules, utxos: UtxoMap, stale: nat, supply: nat, registered: nat, b: Block)
    requires StateValid(rules, utxos, stale, registered, b)
    ensures StateValid(rules, utxos, supply, registered, b) <==> Minted(utxos, b.txs) <= AllowedMint(rules, supply, b.header.height)
    ensures rules.maxSupply == 0 || supply <= stale ==> StateValid(rules, utxos, supply, registered, b)
  {
    hide AllSpendOk, AllMature, AllTokensOk, AllStakesExact, AllRegistrationsOk, CoinbaseOk, Minted, Fees;
  }

  /** The rules without the supply cap: all that a replay against a stale supply makes sure of. */
  function Uncapped(rules: Rules): Rules {
    rules.(maxSupply := 0)
  }

  lemma UncappedValid(rules: Rules, utxos: UtxoMap, stale: nat, supply: nat, registered: nat, b: Block)
    requires StateValid(rules, utxos, stale, registered, b)
    ensures StateValid(Uncapped(rules), utxos, supply, registered, b)
  {
    hide AllSpendOk, AllMature, AllTokensOk, AllStakesExact, AllRegistrationsOk, CoinbaseOk, SingleCoinbase, Minted, Fees;
    SameTokenRules(rules, utxos, b.txs);
    SameStakeRules(rules, b.txs);
    SameRegistrationRules(rules, registered, b.txs);
  }

  lemma SameTokenRules(rules: Rules, utxos: UtxoMap, txs: seq<Tx>)
    requires AllTokensOk(rules, utxos, txs)
    ensures AllTokensOk(Uncapped(rules), utxos, txs)
  {
    forall i | 1 <= i < |txs|
      ensures TokenRulesOk(Uncapped(rules), utxos, txs[i])
    {
      assert TokenRulesOk(rules, utxos, txs[i]);
    }
  }

  lemma SameStakeRules(rules: Rules, txs: seq<Tx>)
    requires AllStakesExact(rules, txs)
    ensures AllStakesExact(Uncapped(rules), txs)
  {
    forall i | 1 <= i < |txs|
      ensures StakeExact(Uncapped(rules), txs[i])
    {
      assert StakeExact(rules, txs[i]);
    }
  }

  lemma SameRegistrationRules(rules: Rules, registered: nat, txs: seq<Tx>)
    requires AllRegistrationsOk(rules, registered, txs)
    ensures AllRegistrationsOk(Uncapped(rules), registered, txs)
  {
    hide BlockOut;
    forall i | 0 <= i < |txs|
      ensures RegistrationsOkAt(Uncapped(rules), registered, txs, i)
    {
      assert RegistrationsOkAt(rules, registered, txs, i);
      forall j | 0 <= j < |txs[i].outputs|
        ensures RegistrationOk(Uncapped(rules), registered, BlockOut(txs[..i], IsRegistration), txs[i].outputs, j)
      {
        assert RegistrationOk(rules, registered, BlockOut(txs[..i], IsRegistration), txs[i].outputs, j);
      }
    }
  }

  lemma {:induction false} UncappedChain(rules: Rules, g: Block, chain: seq<Block>)
    requires ChainOk(rules, g, chain)
    ensures ChainOk(Uncapped(rules), g, chain)
  {
    hide BlockOk, StateValid, Fold, Tagged;
    forall i | 1 <= i < |chain|
      ensures CanExtend(Uncapped(rules), chain[..i], chain[i])
    {
      assert CanExtend(rules, chain[..i], chain[i]);
      var s := Fold(chain[..i]);
      UncappedValid(rules, s.utxos, s.supply, s.supply, s.registered, chain[i]);
    }
  }

  ghost predicate PassedAt(rules: Rules, target: seq<Block>, stale: nat, h: nat)
    requires h < |target|
  {
    StateValid(rules, Fold(target[..h]).utxos, stale, Fold(target[..h]).registered, target[h])
  }

  /** The blocks above the fork and below h passed validation against the stale supply. */
  ghost predicate PassedStale(rules: Rules, target: seq<Block>, fork: nat, stale: nat, h: nat)
    requires h <= |target|
  {
    forall j :: fork < j < h ==> PassedAt(rules, target, stale, j)
  }

  ghost predicate KeepsCapAt(rules: Rules, target: seq<Block>, h: nat)
    requires h < |target|
  {
    |target[h].txs| > 0 && Minted(Fold(target[..h]).utxos, target[h].txs) <= AllowedMint(rules, Fold(target[..h]).supply, target[h].header.height)
  }

  /** No block above the fork mints more than the true supply allows. */
  ghost predicate KeepsCap(rules: Rules, target: seq<Block>, fork: nat) {
    forall h :: fork < h < |target| ==> KeepsCapAt(rules, target, h)
  }

  /** What such a replay accepts is a valid chain exactly when it keeps the cap all the same; and it does
      when the stale supply is nowhere below the true one. */
  lemma {:induction false} ReplayValidExactlyWhen(rules: Rules, g: Block, target: seq<Block>, fork: nat, stale: nat)
    requires fork < |target| && ChainOk(rules, g, target[..fork + 1]) && ChainOk(Uncapped(rules), g, target)
    requires PassedStale(rules, target, fork, stale, |target|)
    ensures ChainOk(rules, g, target) <==> KeepsCap(rules, target, fork)
    ensures SupplyCovers(rules, g, target, fork, stale) ==> KeepsCap(rules, target, fork)
  {
    hide BlockOk, StateValid, Fold, Tagged, GenesisOk, AllowedMint, Minted;
    forall h | fork < h < |target|
      ensures CanExtend(rules, target[..h], target[h]) <==> KeepsCapAt(rules, target, h)
      ensures SupplyCovers(rules, g, target, fork, stale) ==> KeepsCapAt(rules, target, h)
    {
      assert CanExtend(Uncapped(rules), target[..h], target[h]) && PassedAt(rules, target, stale, h);
      var s := Fold(target[..h]);
      StaleSupplyExactlyWhen(rules, s.utxos, stale, s.supply, s.registered, target[h]);
      ValidHasTxs(Uncapped(rules), s, target[h]);
    }
    forall i | 1 <= i < |target|
      ensures i <= fork ==> CanExtend(rules, target[..i], target[i])
    {
      if i <= fork {
        assert CanExtend(rules, target[..fork + 1][..i], target[..fork + 1][i]);
        assert target[..fork + 1][..i] == target[..i];
      }
    }
    assert target[0] == target[..fork + 1][0];
  }

  /** The next block of a replay keeps its totals in uint64, when the whole chain does or the stale supply
      covers the true one. */
  lemma ReplayFits(rules: Rules, g: Block, target: seq<Block>, fork: nat, stale: nat, h: nat)
    requires fork < h < |target| && (SupplyCovers(rules, g, target, fork, stale) || Fits(Fold(target)))
    requires PassedAt(rules, target, stale, h) && Fits(Fold(target[..h]))
    requires CappedSupply(rules.maxSupply, target[..h + 1]) <= MAX_U64 && Fold(target[..h + 1]).cumDiff <= MAX_U64
    ensures Fits(Fold(target[..h + 1]))
  {
    hide *;
    FitsIs(Fold(target));
    FitsIs(Fold(target[..h + 1]));
    if Fits(Fold(target)) {
      FoldMonotone(target, h + 1);
    } else {
      CappedBelow(rules.maxSupply, target[..h + 1]);
      CoversAt(rules, g, target, fork, stale, h);
      if rules.maxSupply > 0 {
        var s := Fold(target[..h]);
        FoldPrefix(target, h);
        PassedMeans(rules, target, stale, h);
        StaleSupplyExactlyWhen(rules, s.utxos, stale, s.supply, s.registered, target[h]);
        ValidHasTxs(rules, s, target[h]);
        MintsUnder(rules, s, target[h]);
        AdvanceSupply(s, target[h]);
      }
    }
  }

  lemma PassedMeans(rules: Rules, target: seq<Block>, stale: nat, h: nat)
    requires h < |target| && PassedAt(rules, target, stale, h)
    ensures StateValid(rules, Fold(target[..h]).utxos, stale, Fold(target[..h]).registered, target[h])
  {
  }

  lemma CoversAt(rules: Rules, g: Block, target: seq<Block>, fork: nat, stale: nat, h: nat)
    requires SupplyCovers(rules, g, target, fork, stale) && fork < h < |target|
    ensures rules.maxSupply == 0 || Fold(target[..h]).supply <= stale
  {
    hide Fold;
  }

  lemma MintsUnder(rules: Rules, s: State, b: Block)
    requires StateValid(rules, s.utxos, s.supply, s.registered, b) && rules.maxSupply > 0 && Fits(s)
    ensures s.supply + Minted(s.utxos, b.txs) <= MAX_U64
  {
    hide AllSpendOk, AllMature, AllTokensOk, AllStakesExact, AllRegistrationsOk, CoinbaseOk, Minted, Fees;
    CapIsNoOp(rules, s.utxos, s.supply, s.registered, b);
  }

  lemma {:induction false} FoldMonotone(chain: seq<Block>, h: nat)
    requires h <= |chain|
    ensures Fold(chain[..h]).supply <= Fold(chain).supply && Fold(chain[..h]).cumDiff <= Fold(chain).cumDiff
    decreases |chain| - h
  {
    if h < |chain| {
      FoldPrefix(chain, h);
      FoldMonotone(chain, h + 1);
    } else {
      assert chain[..h] == chain;
    }
  }

  lemma UncappedAcceptable(rules: Rules, chain: seq<Block>, stale: nat, b: Block)
    requires |chain| > 0 && b.header.height == |chain| && b.header.prevHash == chain[|chain| - 1].Hash()
    requires StateValid(rules, Fold(chain).utxos, stale, Fold(chain).registered, b)
    requires BlockOk(b) && Tagged(b)
    ensures Acceptable(Uncapped(rules), chain, b)
  {
    hide BlockOk, Tagged, Fold, StateValid;
    var s := Fold(chain);
    UncappedValid(rules, s.utxos, stale, s.supply, s.registered, b);
  }

  lemma MakePassed(rules: Rules, target: seq<Block>, stale: nat, h: nat)
    requires h < |target| && StateValid(rules, Fold(target[..h]).utxos, stale, Fold(target[..h]).registered, target[h])
    ensures PassedAt(rules, target, stale, h)
  {
  }

  lemma NonePassed(rules: Rules, target: seq<Block>, fork: nat, stale: nat)
    ensures PassedStale(rules, target, fork, stale, 0)
  {
  }

  lemma PassedGrows(rules: Rules, target: seq<Block>, fork: nat, stale: nat, h: nat)
    requires h < |target| && PassedStale(rules, target, fork, stale, h) && (h > fork ==> PassedAt(rules, target, stale, h))
    ensures PassedStale(rules, target, fork, stale, h + 1)
  {
    hide PassedAt;
  }

  lemma ValidToEnd(target: seq<Block>, fork: nat)
    requires fork < |target|
    ensures ValidTo(target, fork, |target|) == target && target[..|target|] == target
  {
  }

  /** The last writes of a rebuild leave its regions alone. */
  lemma RebuiltRegions(g: Block, rebuilt: Disk, d: Disk, target: seq<Block>)
    requires StoreOk(rebuilt, g) && HeightsAt(rebuilt, target) && UndosDone(rebuilt, target, |target|)
    requires rebuilt.utxos == Fold(target).utxos && IndexesOk(rebuilt)
    requires d == rebuilt.(tip := d.tip, height := d.height, supply := d.supply, cumDiff := d.cumDiff, checkpoint := d.checkpoint)
    ensures StoreOk(d, g) && HeightsAt(d, target) && LedgerAt(d, target) && UndosRight(d, target) && UndosComplete(d, target)
  {
    hide StoreOk, HeightsAt, IndexesOk, Fold, UndoOf;
    SameStore(rebuilt, d, g);
    SameHeightIndex(rebuilt, d, target);
    SameRegions(rebuilt, d);
    forall i | 1 <= i < |target|
      ensures UndoRight(d, target, i) && target[i].Hash() in d.undos
    {
      assert UndoDone(rebuilt, target, i);
    }
  }

  lemma AcceptableReplayable(rules: Rules, g: Block, replayed: seq<Block>, b: Block)
    requires |replayed| > 0 && ChainOk(rules, g, replayed) && Acceptable(rules, replayed, b)
    ensures Replayable(rules, g, replayed, b)
  {
    hide ChainOk, Acceptable, GenesisOk;
  }

  lemma UncappedHarmless(rules: Rules, g: Block)
    requires rules.maxSupply == 0
    ensures CapHarmless(rules, rules, g)
  {
  }

  lemma UncappedCovers(rules: Rules, g: Block, target: seq<Block>, fork: nat, stale: nat)
    requires rules.maxSupply == 0
    ensures SupplyCovers(rules, g, target, fork, stale)
  {
  }

  /** The blocks of `target` known to be valid before height h is replayed. */
  ghost function ValidTo(target: seq<Block>, fork: nat, h: nat): seq<Block>
    requires fork < |target| && h <= |target|
  {
    if h > fork then target[..h] else target[..fork + 1]
  }

  lemma ValidToIs(target: seq<Block>, fork: nat, h: nat)
    requires fork < |target| && h < |target|
    ensures ValidTo(target, fork, h) == if h > fork then target[..h] else target[..fork + 1]
    ensures h <= fork ==> ValidTo(target, fork, h + 1) == ValidTo(target, fork, h)
    ensures h > fork ==> ValidTo(target, fork, h + 1) == target[..h] + [target[h]]
    ensures ValidTo(target, fork, |target|) == target
  {
  }

  lemma AcceptedExtends(rules: Rules, g: Block, chain: seq<Block>, b: Block)
    requires ChainOk(rules, g, chain) && Acceptable(rules, chain, b) && Fits(Fold(chain + [b]))
    ensures ChainOk(rules, g, chain + [b]) && CanExtend(rules, chain, b)
  {
    hide ChainOk, Acceptable, Fits;
    ChainExtends(rules, g, chain, b);
  }

  lemma PutBlockKeepsBlocks(before: Disk, after: Disk, b: Block)
    requires after.blocks == before.blocks || after.blocks == before.blocks[b.Hash() := b]
    requires before.blocks[b.Hash() := b] == before.blocks
    ensures after.blocks == before.blocks
  {
  }

  lemma IndexedFields(d: Disk, b: Block)
    ensures var d' := Indexed(d, b);
            && d'.blocks == d.blocks[b.Hash() := b] && d'.heights == d.heights[b.header.height := b.Hash()]
            && d'.tip == d.tip && d'.height == d.height && d'.checkpoint == d.checkpoint && d'.txs == d.txs + TxEntries(b)
  {
  }

  lemma SameStore(d: Disk, d': Disk, g: Block)
    requires d'.blocks == d.blocks
    ensures StoreOk(d, g) ==> StoreOk(d', g)
  {
    if StoreOk(d, g) {
      forall h | h in d'.blocks
        ensures StoredOk(d', g, h)
      {
        assert StoredOk(d, g, h);
      }
    }
  }

  lemma SameHeightIndex(d: Disk, d': Disk, chain: seq<Block>)
    requires d'.blocks == d.blocks && d'.heights == d.heights
    ensures HeightsAt(d, chain) ==> HeightsAt(d', chain)
  {
    if HeightsAt(d, chain) {
      HeightsPrefix(d, chain, |chain|);
      forall i | 0 <= i < |chain|
        ensures d'.BlockAt(i) == Some(chain[i])
      {
        assert d.BlockAt(i) == Some(chain[i]);
      }
    }
  }

  lemma ClearedIsRest(d: Disk)
    ensures d.Rest() == d.Rest().Rest()
  {
  }

  lemma HeightsNowExact(d: Disk, d': Disk, target: seq<Block>)
    requires forall h :: h in d'.heights ==> h in d.heights || h < |target|
    ensures (forall h :: h in d.heights ==> h < |target|) ==> HeightsExact(d', target)
  {
  }

  lemma RecoverableParts(rules: Rules, g: Block, d: Disk, chain: seq<Block>)
    requires Recoverable(rules, g, d, chain)
    ensures StoreOk(d, g) && ChainOk(rules, g, chain) && HeightsAt(d, chain) && |chain| > 0
    ensures d.tip == Some(chain[|chain| - 1].Hash()) && d.height == Some(|chain| - 1) && d.checkpoint.Some?
  {
  }

  lemma NothingRebuilt(start: Disk, d: Disk)
    requires d == start.Rest()
    ensures d.utxos == Fold([]).utxos && IndexesOk(d)
    ensures forall m: nat :: CappedSupply(m, []) == 0
    ensures Fold([]).supply == 0 && Fold([]).cumDiff == 0 && Fold([]).registered == 0 && Fold([]).registered <= MAX_U64
  {
  }

  ghost predicate UndoDone(d: Disk, chain: seq<Block>, i: nat)
    requires i < |chain|
  {
    chain[i].Hash() in d.undos && d.undos[chain[i].Hash()] == UndoOf(chain, i)
  }

  /** The undo records of the first n blocks are on disk, and right. */
  ghost predicate UndosDone(d: Disk, chain: seq<Block>, n: nat)
    requires n <= |chain|
  {
    forall i :: 0 <= i < n ==> UndoDone(d, chain, i)
  }

  lemma NoUndosYet(d: Disk, chain: seq<Block>)
    ensures UndosDone(d, chain, 0)
  {
  }

  lemma {:induction false} UndosDoneGrow(g: Block, d: Disk, d': Disk, chain: seq<Block>, n: nat)
    requires StoreOk(d, g) && Heighted(chain) && HeightsAt(d, chain) && n < |chain| && UndosDone(d, chain, n)
    requires d'.undos == d.undos[chain[n].Hash() := UndoOf(chain[..n] + [chain[n]], n)]
    ensures UndosDone(d', chain, n + 1)
  {
    hide StoreOk, HeightsAt;
    assert (chain[..n] + [chain[n]])[..n] == chain[..n];
    forall i | 0 <= i < n + 1
      ensures UndoDone(d', chain, i)
    {
      if i < n {
        assert UndoDone(d, chain, i);
        StoredUnderHash(d, g, chain, i);
        StoredUnderHash(d, g, chain, n);
      }
    }
  }

  lemma NextToReplay(rules: Rules, g: Block, chain: seq<Block>, h: nat)
    requires ChainOk(rules, g, chain) && h < |chain|
    ensures Replayable(rules, g, chain[..h], chain[h])
    ensures h > 0 ==> Fits(Fold(chain[..h] + [chain[h]]))
    ensures h == 0 ==> Fits(Fold([chain[0]]))
  {
    hide Acceptable, GenesisOk, Fits, Fold;
    if h > 0 {
      ChainPrefix(rules, g, chain, h);
      assert CanExtend(rules, chain[..h], chain[h]);
    } else {
      ChainPrefix(rules, g, chain, 1);
      ChainFits(rules, g, chain[..1]);
      assert chain[..1] == [chain[0]];
    }
  }

  /** The registration counter only grows along a chain. */
  lemma {:induction false} RegisteredBy(chain: seq<Block>, h: nat)
    requires h < |chain|
    ensures Fold(chain[..h]).registered + Registrations(chain[h]) <= Fold(chain).registered
    decreases |chain|
  {
    if h == |chain| - 1 {
      assert chain[..h] + [chain[h]] == chain;
    } else {
      RegisteredBy(chain[..|chain| - 1], h);
      assert chain[..|chain| - 1][..h] == chain[..h];
    }
  }

  lemma RebuiltDisk(rules: Rules, g: Block, rebuilt: Disk, d: Disk, chain: seq<Block>, supply: nat, cumDiff: nat)
    requires StoreOk(rebuilt, g) && ChainOk(rules, g, chain) && HeightsAt(rebuilt, chain) && |chain| > 0 && UndosDone(rebuilt, chain, |chain|)
    requires rebuilt.utxos == Fold(chain).utxos && IndexesOk(rebuilt) && supply == Fold(chain).supply && cumDiff == Fold(chain).cumDiff
    requires d == rebuilt.(tip := Some(chain[|chain| - 1].Hash()), height := Some(|chain| - 1), supply := Some(supply), cumDiff := Some(cumDiff), checkpoint := None)
    ensures DiskAt(rules, g, d, chain) && UndosComplete(d, chain)
  {
    hide StoreOk, ChainOk, HeightsAt, IndexesOk, Fold, UndoOf;
    SameTablesCarry(rules, g, rebuilt, d, chain);
    SameRegions(rebuilt, d);
    forall i | 1 <= i < |chain|
      ensures UndoRight(d, chain, i) && chain[i].Hash() in d.undos
    {
      assert UndoDone(rebuilt, chain, i);
    }
  }

  lemma ValidHasTxs(rules: Rules, s: State, b: Block)
    requires StateValid(rules, s.utxos, s.supply, s.registered, b)
    ensures |b.txs| > 0 && Reward(s.utxos, b) == Minted(s.utxos, b.txs)
  {
  }

  // ---------------------------------------------------------------- what a rebuild costs

  /** The writes of replaying a chain from genesis: outputs and undo record of every block. */
  ghost function ReplayWrites(chain: seq<Block>): nat {
    if |chain| == 0 then 0 else
      var n := |chain| - 1;
      ReplayWrites(chain[..n]) + BlockWrites(Fold(chain[..n]).utxos, chain[n].txs, chain[n].header.height) + 1
  }

  /** The writes of RebuildUTXOs: clearing, replaying, tip and totals, and the checkpoint. */
  ghost function RebuildWrites(d: Disk, chain: seq<Block>): nat {
    OutputKeys(d) + ReplayWrites(chain) + 5
  }

  /** The most output keys that a rebuild, cut short anywhere, leaves on a disk. */
  ghost function MostKeys(d: Disk, chain: seq<Block>): nat {
    if OutputKeys(d) >= ReplayWrites(chain) + 5 then OutputKeys(d) else ReplayWrites(chain) + 5
  }

  lemma ReplayWritesStep(chain: seq<Block>, h: nat)
    requires h < |chain|
    ensures ReplayWrites(chain[..h + 1]) == ReplayWrites(chain[..h]) + BlockWrites(Fold(chain[..h]).utxos, chain[h].txs, chain[h].header.height) + 1
  {
    assert chain[..h + 1][..h] == chain[..h];
  }

  lemma {:induction false} ReplayWritesGrow(chain: seq<Block>, h: nat)
    requires h <= |chain|
    ensures ReplayWrites(chain[..h]) <= ReplayWrites(chain)
    decreases |chain| - h
  {
    hide BlockWrites, Fold;
    if h < |chain| {
      ReplayWritesStep(chain, h);
      ReplayWritesGrow(chain, h + 1);
    } else {
      assert chain[..h] == chain;
    }
  }

  lemma RebuildWritesAre(d: Disk, chain: seq<Block>)
    ensures RebuildWrites(d, chain) == OutputKeys(d) + ReplayWrites(chain) + 5
    ensures MostKeys(d, chain) >= OutputKeys(d) && MostKeys(d, chain) >= ReplayWrites(chain) + 5
    ensures MostKeys(d, chain) == OutputKeys(d) || MostKeys(d, chain) == ReplayWrites(chain) + 5
    ensures ReplayWrites([]) == 0
  {
  }

  lemma SameKeys(d: Disk, d': Disk)
    requires d'.utxos == d.utxos && d'.addrs == d.addrs && d'.stakes == d.stakes
    ensures OutputKeys(d') == OutputKeys(d)
  {
  }

  lemma NoKeys(d: Disk)
    ensures OutputKeys(d.Rest()) == 0
  {
  }

  /** There are no more registrations than outputs. */
  lemma {:induction false} RegistrationsFew(m: UtxoMap)
    ensures Total(m, IsRegistration) <= |m|
    decreases |m|
  {
    var w := Lift(IsRegistration);
    if m != map[] {
      var op :| op in m;
      assert w(m[op]) == IsRegistration(AsOutput(m[op])) <= 1;
      MapSumRemove(m, op, w);
      RegistrationsFew(m - {op});
    }
  }

  lemma ExtensionFits(rules: Rules, chain: seq<Block>, b: Block)
    requires CanExtend(rules, chain, b)
    ensures Fits(Fold(chain + [b]))
  {
    hide BlockOk, StateValid, Tagged, Fold;
  }

  lemma CompleteHas(d: Disk, chain: seq<Block>, h: nat)
    requires UndosComplete(d, chain) && 0 < h < |chain|
    ensures chain[h].Hash() in d.undos
  {
  }

  lemma StillRecoverable(rules: Rules, g: Block, d: Disk, d': Disk, chain: seq<Block>)
    requires Recoverable(rules, g, d, chain)
    requires d'.blocks == d.blocks && d'.heights == d.heights && d'.tip == d.tip && d'.height == d.height && d'.checkpoint == d.checkpoint
    ensures Recoverable(rules, g, d', chain)
  {
    SameTablesCarry(rules, g, d, d', chain);
  }

  /** What is left of `before` when connecting `b` stops before its batch, after `writes` writes: with
      none, nothing has changed; otherwise the coinbase's first output is already there. */
  ghost predicate StoppedBefore(before: Disk, after: Disk, writes: nat, b: Block) {
    && after.Rest() == before.Rest()
    && (writes == 0 ==> after == before)
    && (writes > 0 ==> |b.txs| > 0 && |b.txs[0].outputs| > 0 && Outpoint(TxHash(b.txs[0]), 0) in after.utxos)
  }

  /** ... and when it stops after the batch: the block is committed. */
  ghost predicate StoppedAfter(rules: Rules, g: Block, before: Disk, after: Disk, chain: seq<Block>, b: Block) {
    && CanExtend(rules, chain, b) && ChainOk(rules, g, chain + [b]) && StoreOk(after, g)
    && HeightsAt(after, chain + [b]) && TipIs(after, chain + [b])
    && after.heights == before.heights[|chain| := b.Hash()] && after.blocks == before.blocks[b.Hash() := b]
  }

  lemma MakeStoppedBefore(before: Disk, after: Disk, writes: nat, b: Block)
    requires after.Rest() == before.Rest() && StartsWithPayment(b.txs)
    requires writes == 0 ==> after == before
    requires writes > 0 ==> Outpoint(TxHash(b.txs[0]), 0) in after.utxos
    ensures StoppedBefore(before, after, writes, b)
  {
  }

  lemma MakeStoppedAfter(rules: Rules, g: Block, before: Disk, after: Disk, chain: seq<Block>, b: Block)
    requires CanExtend(rules, chain, b) && ChainOk(rules, g, chain + [b]) && StoreOk(after, g)
    requires HeightsAt(after, chain + [b]) && TipIs(after, chain + [b])
    requires after.heights == before.heights[|chain| := b.Hash()] && after.blocks == before.blocks[b.Hash() := b]
    ensures StoppedAfter(rules, g, before, after, chain, b)
  {
  }

  lemma StoppedMeans(rules: Rules, g: Block, before: Disk, after: Disk, writes: nat, chain: seq<Block>, b: Block)
    ensures StoppedBefore(before, after, writes, b) ==> after.Rest() == before.Rest() && (writes == 0 ==> after == before)
    ensures StoppedAfter(rules, g, before, after, chain, b) ==>
              CanExtend(rules, chain, b) && HeightsAt(after, chain + [b]) && TipIs(after, chain + [b]) && after.blocks == before.blocks[b.Hash() := b]
    ensures after.Rest() == before.Rest() ==> after.blocks == before.blocks
  {
    if after.Rest() == before.Rest() {
      RestFields(before, after);
    }
  }

  lemma OpensWithCoinbase(b: Block)
    requires BlockOk(b)
    ensures StartsWithPayment(b.txs)
  {
    ZeroSpendsNothing(b.txs[0]);
    assert TxOk(b.txs[0]);
  }

  /** The database is neither that of any chain nor one a restart would rebuild into any. */
  ghost predicate Lost(rules: Rules, g: Block, d: Disk) {
    forall chain: seq<Block> :: !DiskAt(rules, g, d, chain) && !Recoverable(rules, g, d, chain)
  }

  lemma SameTipSameChain(d: Disk, a: seq<Block>, b: seq<Block>)
    requires |a| > 0 && |b| > 0 && HeightsAt(d, a) && HeightsAt(d, b) && TipIs(d, a) && TipIs(d, b)
    ensures a == b
  {
    forall i | 0 <= i < |a|
      ensures a[i] == b[i]
    {
      assert d.BlockAt(i) == Some(a[i]);
    }
  }

  /** A tip above a torn chain belongs to none: the height index leads from the tip down across the tear. */
  lemma {:induction false} TornLoses(rules: Rules, g: Block, start: Disk, chain: seq<Block>, d: Disk, h: nat)
    requires HeightsAt(start, chain) && |chain| > 0 && Torn(start, chain)
    requires d.blocks == start.blocks && SameBelow(start, d, |chain| + 1) && d.height == Some(h) && h >= |chain|
    ensures Lost(rules, g, d)
  {
    hide ChainOk, StoreOk, LedgerAt, UndosRight, TotalsAt;
    var n := |chain|;
    assert start.BlockAt(n - 1) == Some(chain[n - 1]);
    forall x: seq<Block>
      ensures !DiskAt(rules, g, d, x) && !Recoverable(rules, g, d, x)
    {
      if DiskAt(rules, g, d, x) || Recoverable(rules, g, d, x) {
        assert |x| > n;
        assert d.BlockAt(n - 1) == Some(x[n - 1]) && d.BlockAt(n) == Some(x[n]);
        ChainHeights(rules, g, x, n);
        assert false;
      }
    }
  }

  /** The height index of `d` holds the first k blocks of a branch at their heights. */
  ghost predicate BranchAt(d: Disk, path: seq<Block>, k: nat)
    requires 0 < |path| && k <= |path|
  {
    forall i :: 0 <= i < k ==> d.BlockAt(path[0].header.height + i) == Some(path[i])
  }

  lemma BranchAtNext(d: Disk, path: seq<Block>, k: nat, d': Disk)
    requires k < |path| && Linked(path) && BranchAt(d, path, k) && path[k].Hash() in d.blocks && d.blocks[path[k].Hash()] == path[k]
    requires d'.blocks == d.blocks && d'.heights == d.heights[path[k].header.height := path[k].Hash()]
    ensures BranchAt(d', path, k + 1)
  {
    LinkedHeights(path, k);
    forall i | 0 <= i < k + 1
      ensures d'.BlockAt(path[0].header.height + i) == Some(path[i])
    {
      assert i < k ==> d.BlockAt(path[0].header.height + i) == Some(path[i]);
    }
  }

  lemma BranchAtSame(d: Disk, path: seq<Block>, k: nat, d': Disk)
    requires 0 < |path| && k <= |path| && BranchAt(d, path, k) && d'.blocks == d.blocks && d'.heights == d.heights
    ensures BranchAt(d', path, k)
  {
    forall i | 0 <= i < k
      ensures d'.BlockAt(path[0].header.height + i) == Some(path[i])
    {
      assert d.BlockAt(path[0].header.height + i) == Some(path[i]);
    }
  }

  /** What is left when blocks were connected to `chain` across a gap in heights: the database of no
      chain. A restart can rebuild one at most, the one the height index spells, which goes on from
      `chain` with the entry right above it; none once the checkpoint is gone, or if the index is torn. */
  ghost predicate Crossed(rules: Rules, g: Block, before: Disk, chain: seq<Block>, d: Disk)
    requires |chain| > 0
  {
    && (forall x: seq<Block> :: !DiskAt(rules, g, d, x))
    && (forall x: seq<Block> :: Recoverable(rules, g, d, x) ==> |x| > |chain| + 1 && x[..|chain|] == chain && before.BlockAt(|chain|) == Some(x[|chain|]))
    && (d.checkpoint.None? || Torn(before, chain) ==> Lost(rules, g, d))
  }

  lemma SpelledBelow(start: Disk, chain: seq<Block>, d: Disk, x: seq<Block>)
    requires HeightsAt(start, chain) && d.blocks == start.blocks && SameBelow(start, d, |chain| + 1)
    requires HeightsAt(d, x) && |x| > |chain|
    ensures x[..|chain|] == chain && start.BlockAt(|chain|) == Some(x[|chain|])
  {
    forall i | 0 <= i < |chain|
      ensures x[i] == chain[i]
    {
      assert start.BlockAt(i) == Some(chain[i]) && d.BlockAt(i) == Some(x[i]);
    }
    assert d.BlockAt(|chain|) == Some(x[|chain|]);
  }

  lemma SpelledAbove(path: seq<Block>, k: nat, d: Disk, x: seq<Block>)
    requires 0 < k <= |path| && BranchAt(d, path, k) && HeightsAt(d, x) && |x| == path[0].header.height + k
    ensures x[path[0].header.height..] == path[..k]
  {
    var p := path[0].header.height;
    forall i | 0 <= i < k
      ensures x[p + i] == path[i]
    {
      assert d.BlockAt(p + i) == Some(path[i]) && d.BlockAt(p + i) == Some(x[p + i]);
    }
  }

  lemma StoredWorks(rules: Rules, g: Block, d: Disk, x: seq<Block>, i: nat)
    requires StoreOk(d, g) && ChainOk(rules, g, x) && HeightsAt(d, x) && 0 < i < |x|
    ensures x[i].header.difficulty > 0
  {
    hide ChainOk;
    StoredUnderHash(d, g, x, i);
    ChainHeights(rules, g, x, i);
    assert StoredOk(d, g, x[i].Hash());
  }

  lemma {:induction false} SpelledAcross(rules: Rules, g: Block, start: Disk, chain: seq<Block>, path: seq<Block>, k: nat, d: Disk, x: seq<Block>)
    requires HeightsAt(start, chain) && |chain| > 0 && d.blocks == start.blocks && SameBelow(start, d, |chain| + 1)
    requires 0 < k <= |path| && path[0].header.height > |chain| && BranchAt(d, path, k) && d.height == Some(path[0].header.height + k - 1)
    requires StoreOk(d, g) && ChainOk(rules, g, x) && HeightsAt(d, x) && TipIs(d, x)
    ensures |x| == path[0].header.height + k && x[..|chain|] == chain && start.BlockAt(|chain|) == Some(x[|chain|]) && x[path[0].header.height..] == path[..k]
    ensures x[|chain|].header.difficulty > 0
  {
    hide ChainOk, StoreOk, HeightsAt, SameBelow, BranchAt;
    assert |x| == path[0].header.height + k;
    SpelledBelow(start, chain, d, x);
    SpelledAbove(path, k, d, x);
    StoredWorks(rules, g, d, x, |chain|);
  }

  lemma {:induction false} SkipsWork(chain: seq<Block>, x: seq<Block>, p: nat)
    requires 0 < |chain| < p <= |x| && x[..|chain|] == chain && x[|chain|].header.difficulty > 0
    ensures Fold(x).cumDiff > Fold(chain).cumDiff + Sum(x[p..], DifficultyOf)
  {
    hide Fold;
    var n := |chain|;
    WorkSplits(x, p);
    WorkSplits(x[..p], n + 1);
    assert x[..p][..n + 1] == x[..n + 1];
    FoldPrefix(x, n);
    WorkOf(Fold(chain), x[n]);
  }

  lemma {:induction false} GapIsCrossed(rules: Rules, g: Block, start: Disk, chain: seq<Block>, path: seq<Block>, k: nat, d: Disk)
    requires HeightsAt(start, chain) && |chain| > 0 && d.blocks == start.blocks && SameBelow(start, d, |chain| + 1)
    requires 0 < k <= |path| && path[0].header.height > |chain| && BranchAt(d, path, k) && d.height == Some(path[0].header.height + k - 1)
    requires CumDiffOf(d) == Fold(chain).cumDiff + Sum(path[..k], DifficultyOf)
    ensures Crossed(rules, g, start, chain, d)
  {
    hide ChainOk, StoreOk, HeightsAt, LedgerAt, UndosRight, Fold, Sum, SameBelow, Torn, BranchAt;
    forall x: seq<Block> | DiskAt(rules, g, d, x) || Recoverable(rules, g, d, x)
      ensures !DiskAt(rules, g, d, x) && |x| > |chain| + 1 && x[..|chain|] == chain && start.BlockAt(|chain|) == Some(x[|chain|])
    {
      SpelledAcross(rules, g, start, chain, path, k, d, x);
      SkipsWork(chain, x, path[0].header.height);
    }
    if Torn(start, chain) {
      TornLoses(rules, g, start, chain, d, path[0].header.height + k - 1);
    }
  }

  /** The database `d` while blocks of `path` are connected to `chain` across the gap, j of them so far. */
  ghost predicate Across(start: Disk, chain: seq<Block>, path: seq<Block>, j: nat, d: Disk)
    requires 0 < |path| && j <= |path|
  {
    && d.blocks == start.blocks && SameBelow(start, d, |chain| + 1) && BranchAt(d, path, j)
    && (j > 0 ==> d.height == Some(path[0].header.height + j - 1))
    && CumDiffOf(d) == Fold(chain).cumDiff + Sum(path[..j], DifficultyOf)
  }

  lemma AcrossStarts(start: Disk, chain: seq<Block>, path: seq<Block>, d: Disk)
    requires 0 < |path| && TotalsAt(start, chain) && d.blocks == start.blocks && d.heights == start.heights && d.cumDiff == start.cumDiff
    ensures Across(start, chain, path, 0, d) && CumDiffOf(d) == Fold(chain).cumDiff
  {
    hide Fold;
    SumEmpty();
    assert path[..0] == [];
  }

  lemma AcrossNext(start: Disk, chain: seq<Block>, path: seq<Block>, j: nat, d: Disk, d': Disk)
    requires j < |path| && Across(start, chain, path, j, d) && Linked(path) && path[0].header.height > |chain|
    requires var b := path[j]; b.Hash() in start.blocks && start.blocks[b.Hash()] == b
    requires var b := path[j]; d'.blocks == d.blocks && d'.heights == d.heights[b.header.height := b.Hash()] && d'.height == Some(b.header.height)
    requires CumDiffOf(d') == CumDiffOf(d) + path[j].header.difficulty
    ensures Across(start, chain, path, j + 1, d')
  {
    hide Fold, SameBelow, BranchAt, Linked, CumDiffOf, Sum;
    LinkedHeights(path, j);
    SameBelowNext(start, d, d', |chain| + 1, path[j].header.height, path[j].Hash());
    BranchAtNext(d, path, j, d');
    SumPrefix(path, DifficultyOf, j);
  }

  lemma AcrossSame(start: Disk, chain: seq<Block>, path: seq<Block>, j: nat, d: Disk, d': Disk)
    requires 0 < |path| && j <= |path| && Across(start, chain, path, j, d)
    requires d'.blocks == d.blocks && d'.heights == d.heights && d'.height == d.height && CumDiffOf(d') == CumDiffOf(d)
    ensures Across(start, chain, path, j, d')
  {
    hide Fold, SameBelow, BranchAt, CumDiffOf, Sum;
    SameBelowNext(start, d, d', |chain| + 1, |chain| + 1, ZERO_HASH);
    BranchAtSame(d, path, j, d');
  }

  lemma AcrossIsCrossed(rules: Rules, g: Block, start: Disk, chain: seq<Block>, path: seq<Block>, j: nat, d: Disk)
    requires 0 < j <= |path| && Across(start, chain, path, j, d) && HeightsAt(start, chain) && |chain| > 0 && path[0].header.height > |chain|
    ensures Crossed(rules, g, start, chain, d)
  {
    hide Fold, SameBelow, BranchAt, CumDiffOf, Sum, HeightsAt, Crossed;
    GapIsCrossed(rules, g, start, chain, path, j, d);
  }

  lemma WorkStays(d: Disk, d': Disk)
    requires d'.cumDiff == d.cumDiff
    ensures CumDiffOf(d') == CumDiffOf(d)
  {
  }

  lemma FirstOutputIsNew(rules: Rules, g: Block, chain: seq<Block>, b: Block)
    requires TxHashSound() && ChainOk(rules, g, chain) && CanExtend(rules, chain, b) && |b.txs| > 0 && |b.txs[0].outputs| > 0
    ensures Outpoint(TxHash(b.txs[0]), 0) !in Fold(chain).utxos
  {
    NextBlockFresh(rules, g, chain, b);
    assert Outpoint(TxHash(b.txs[0]), 0) in Creates(b.txs[0]);
  }

  /** The fast path writes outputs before its batch, under no checkpoint. Stopped after the first of
      those writes and before the batch, it leaves a database that belongs to no chain, and that no
      restart repairs. */
  lemma {:induction false} FastPathUnprotected(rules: Rules, g: Block, d: Disk, chain: seq<Block>, d': Disk, writes: nat, b: Block)
    requires TxHashSound() && DiskAt(rules, g, d, chain) && CanExtend(rules, chain, b) && StoppedBefore(d, d', writes, b)
    ensures writes == 0 ==> DiskAt(rules, g, d', chain)
    ensures writes > 0 ==> Lost(rules, g, d')
  {
    hide StoreOk, ChainOk, CanExtend, HeightsAt, UndosRight, IndexesOk, Fold;
    RestCarries(rules, g, d, d', chain);
    if writes > 0 {
      FirstOutputIsNew(rules, g, chain, b);
      forall x: seq<Block>
        ensures !DiskAt(rules, g, d', x) && !Recoverable(rules, g, d', x)
      {
        if DiskAt(rules, g, d', x) {
          ChainStart(rules, g, x);
          SameTipSameChain(d', chain, x);
        }
      }
    }
  }

  /** There is always room for such a stop: every block takes at least one write before its batch. */
  lemma {:induction false} EveryBlockHasGap(m: UtxoMap, b: Block)
    requires BlockOk(b)
    ensures BlockWrites(m, b.txs, b.header.height) >= 1
  {
    hide SpendWrites, BlockOk;
    OpensWithCoinbase(b);
    var t := b.txs[0];
    var lock := LockFor(m, t, b.header.height);
    BlockWritesStep(m, b.txs, b.header.height, 0);
    assert b.txs[..0] == [];
    CreateWritesGrow(t, 1, b.header.height, b.header.height > 0, lock);
    BlockWritesGrow(m, b.txs, b.header.height, 1);
  }

  /** rebuildReorg writes the height index before it moves the tip. Such a write leaves the old
      chain recoverable exactly when it does not touch it: a branch block at or below the old tip
      hides a block of the chain that a restart would replay. */
  lemma {:induction false} IndexWriteUnprotected(rules: Rules, g: Block, d: Disk, chain: seq<Block>, b: Block)
    requires Recoverable(rules, g, d, chain) && b.Hash() in d.blocks && d.blocks[b.Hash()] == b
    ensures Recoverable(rules, g, Indexed(d, b), chain) <==> (b.header.height < |chain| ==> b == chain[b.header.height])
  {
    hide ChainOk, StoreOk, Indexed;
    var d' := Indexed(d, b);
    IndexedFields(d, b);
    SameStore(d, d', g);
    var k := b.header.height;
    if k < |chain| {
      assert d'.BlockAt(k) == Some(b);
    }
    if k < |chain| ==> b == chain[k] {
      forall i | 0 <= i < |chain|
        ensures d'.BlockAt(i) == Some(chain[i])
      {
        assert d.BlockAt(i) == Some(chain[i]);
      }
    }
  }

  /** The very first index write of a branch off the chain does that exactly when the branch leaves the
      chain below its tip. */
  lemma {:induction false} FirstIndexWriteBreaks(rules: Rules, g: Block, d: Disk, chain: seq<Block>, hash: Hash)
    requires Recoverable(rules, g, d, chain) && hash in d.blocks && d.blocks[hash] !in chain
    ensures StoreOk(d, g)
    ensures var p := Path(d, g, chain, hash);
            |p| > 0 && (!Recoverable(rules, g, Indexed(d, p[0]), chain) <==> p[0].header.height < |chain|)
  {
    hide ChainOk, StoreOk, Recoverable, Indexed, Path;
    RecoverableParts(rules, g, d, chain);
    PathIsBranch(rules, d, g, chain, hash);
    var p := Path(d, g, chain, hash);
    IndexWriteUnprotected(rules, g, d, chain, p[0]);
    assert p[0] !in chain;
  }

  // ---------------------------------------------------------------- a start that was cut short

  /** What InitFromGenesis leaves when a write fails: a database to start on again; or that of the
      one-block chain without the supply, or without the height as well. */
  ghost predicate GenesisCut(rules: Rules, g: Block, d: Disk, total: nat) {
    Startable(d, g) ||
    (d.supply.None? && d.height in {None, Some(0)} && DiskAt(rules, g, d.(height := Some(0), supply := Some(total)), [g]))
  }

  lemma NotBegun(rules: Rules, g: Block, d: Disk, total: nat)
    requires Startable(d, g)
    ensures GenesisCut(rules, g, d, total)
  {
  }

  lemma CutIs(rules: Rules, g: Block, d: Disk, total: nat)
    requires d.supply.None? && d.height in {None, Some(0)}
    requires var full, chain := d.(height := Some(0), supply := Some(total)), [g];
             && ChainOk(rules, g, chain) && StoreOk(full, g) && HeightsAt(full, chain) && LedgerAt(full, chain)
             && UndosRight(full, chain) && TipIs(full, chain) && TotalsAt(full, chain) && full.checkpoint.None?
    ensures GenesisCut(rules, g, d, total)
  {
    hide ChainOk, StoreOk, HeightsAt, LedgerAt, UndosRight, TipIs, TotalsAt, Startable;
  }

  /** With a tip but no height a node does not start at all. With no supply it starts, and counts from
      zero: the database belongs to no chain exactly when genesis allocated anything. */
  lemma {:induction false} CutExactlyWhen(rules: Rules, g: Block, d: Disk, total: nat)
    requires GenesisCut(rules, g, d, total) && d.tip.Some?
    ensures Lost(rules, g, d) <==> d.height.None? || total > 0
    ensures SupplyOf(d) == 0
  {
    hide ChainOk, StoreOk, LedgerAt, UndosRight, Fold;
    var full := d.(height := Some(0), supply := Some(total));
    assert forall i: nat :: d.BlockAt(i) == full.BlockAt(i);
    if d.height.Some? {
      SameButSupply(rules, g, full, d, total);
      forall x: seq<Block> | DiskAt(rules, g, d, x)
        ensures total == 0
      {
        assert HeightsAt(full, x) && TipIs(full, x);
        SameTipSameChain(full, x, [g]);
      }
    }
  }

  lemma SameButSupply(rules: Rules, g: Block, full: Disk, d: Disk, total: nat)
    requires DiskAt(rules, g, full, [g]) && full.supply == Some(total) && d == full.(supply := None)
    ensures DiskAt(rules, g, d, [g]) <==> total == 0
  {
    hide ChainOk, Fold, IndexesOk;
    assert forall i: nat :: d.BlockAt(i) == full.BlockAt(i);
    SameStore(full, d, g);
    SameStore(d, full, g);
    SameRegions(full, d);
  }
}
