/** Conservation over whole chains: native value against the supply counter and its caps,
    sub-chain registrations, and token issuance. */
module Economics {
  import opened Types
  import opened Ledger
  import opened Weights
  import opened TxRules
  import opened Tokens
  import opened BlockRules
  import opened Subsidy
  import opened StateRules
  import opened Replay

  // ---------------------------------------------------------------- one block

  lemma CoinbaseTakesNothing(m: UtxoMap, t: Tx, v: Weight)
    requires IsCoinbase(t)
    ensures InSum(m, t.inputs, v) == 0
  {
    assert InSum(m, t.inputs[..0], v) == 0;
  }

  lemma {:induction false} FeesAccount(m: UtxoMap, txs: seq<Tx>)
    requires |txs| > 0 && IsCoinbase(txs[0]) && AllSpendOk(m, txs)
    ensures BlockIn(m, txs, ValueOf) + OutSum(txs[0], ValueOf) == Fees(m, txs) + BlockOut(txs, ValueOf)
    decreases |txs|
  {
    var n := |txs| - 1;
    if n == 0 {
      CoinbaseTakesNothing(m, txs[0], ValueOf);
      assert BlockIn(m, txs[..0], ValueOf) == 0 && BlockOut(txs[..0], ValueOf) == 0;
    } else {
      assert SpendOk(txs[n], m);
      FeesAccount(m, txs[..n]);
    }
  }

  lemma ValidSpendsDistinct(b: Block)
    requires BlockOk(b)
    ensures forall i :: 0 <= i < |b.txs| ==> DistinctSpends(b.txs[i].inputs)
  {
    forall i | 0 <= i < |b.txs|
      ensures DistinctSpends(b.txs[i].inputs)
    {
      TxOkDistinctSpends(b.txs[i]);
    }
  }

  /** Any weight moves by outputs minus inputs when a valid block is added. */
  lemma {:induction false} WeightStep(rules: Rules, g: Block, chain: seq<Block>, b: Block, v: Weight)
    requires TxHashSound() && ChainOk(rules, g, chain) && CanExtend(rules, chain, b)
    ensures Total(Fold(chain + [b]).utxos, v) + BlockIn(Fold(chain).utxos, b.txs, v) == Total(Fold(chain).utxos, v) + BlockOut(b.txs, v)
  {
    FoldStep(chain, b);
    NextBlockFresh(rules, g, chain, b);
    ValidSpendsDistinct(b);
    BlockMoves(Fold(chain).utxos, b.txs, b.header.height, v);
  }

  /** A block changes the value of the unspent outputs by exactly its coinbase minus its fees. */
  lemma {:induction false} ValueStep(rules: Rules, g: Block, chain: seq<Block>, b: Block)
    requires TxHashSound() && ChainOk(rules, g, chain) && CanExtend(rules, chain, b)
    ensures Total(Fold(chain + [b]).utxos, ValueOf) + Fees(Fold(chain).utxos, b.txs)
         == Total(Fold(chain).utxos, ValueOf) + OutSum(b.txs[0], ValueOf)
  {
    WeightStep(rules, g, chain, b, ValueOf);
    FeesAccount(Fold(chain).utxos, b.txs);
  }

  lemma GenesisTotal(g: Block, v: Weight)
    requires GenesisOk(g)
    ensures Total(Fold([g]).utxos, v) == OutSum(g.txs[0], v)
    ensures Fold([g]).supply == OutSum(g.txs[0], ValueOf)
    ensures Fold([g]).cumDiff == 0
    ensures Fold([g]).registered == OutSum(g.txs[0], IsRegistration)
  {
    hide *;
    GenesisIs(g);
    GenesisProvenance(g);
    GenesisFold(g);
    GenesisBlockSums(g, v);
    GenesisBlockSums(g, IsRegistration);
    FirstState(g);
    BlockMoves(map[], g.txs, 0, v);
  }

  lemma GenesisIs(g: Block)
    requires GenesisOk(g)
    ensures g.header.height == 0 && g.header.difficulty == 0 && |g.txs| == 1
  {
  }

  lemma FirstState(g: Block)
    requires |g.txs| > 0 && Fees(map[], g.txs) == 0
    ensures var s := Advance(EMPTY, g);
            s.supply == OutSum(g.txs[0], ValueOf) && s.cumDiff == g.header.difficulty && s.registered == BlockOut(g.txs, IsRegistration)
  {
    hide Fees, OutSum, BlockOut, ApplyBlock;
  }

  lemma GenesisBlockSums(g: Block, v: Weight)
    requires GenesisOk(g)
    ensures BlockIn(map[], g.txs, v) == 0 && BlockOut(g.txs, v) == OutSum(g.txs[0], v) && Total(map[], v) == 0
    ensures DistinctSpends(g.txs[0].inputs) && Fees(map[], g.txs) == 0
  {
    CoinbaseTakesNothing(map[], g.txs[0], v);
    assert g.txs == [g.txs[0]] && g.txs[..0] == [];
    assert BlockIn(map[], g.txs[..0], v) == 0 && BlockOut(g.txs[..0], v) == 0;
  }

  // ---------------------------------------------------------------- over whole chains

  /** The unspent outputs are never worth more than the supply counter says. */
  lemma {:induction false} ValueUnderSupply(rules: Rules, g: Block, chain: seq<Block>)
    requires TxHashSound() && ChainOk(rules, g, chain)
    ensures Total(Fold(chain).utxos, ValueOf) <= Fold(chain).supply
    decreases |chain|
  {
    hide ChainOk, CanExtend, Acceptable, BlockOk, StateValid;
    LastBlock(rules, g, chain);
    var n := |chain| - 1;
    if n == 0 {
      GenesisTotal(g, ValueOf);
    } else {
      ValueUnderSupply(rules, g, chain[..n]);
      ValueStep(rules, g, chain[..n], chain[n]);
    }
  }

  /** The supply never passes the cap when the genesis allocations fit under it. */
  lemma {:induction false} SupplyUnderCap(rules: Rules, g: Block, chain: seq<Block>)
    requires ChainOk(rules, g, chain)
    requires rules.maxSupply > 0 && OutSum(g.txs[0], ValueOf) <= rules.maxSupply
    ensures Fold(chain).supply <= rules.maxSupply
    decreases |chain|
  {
    hide ChainOk, CanExtend, Acceptable, BlockOk, StateValid;
    LastBlock(rules, g, chain);
    var n := |chain| - 1;
    if n == 0 {
      GenesisTotal(g, ValueOf);
    } else {
      SupplyUnderCap(rules, g, chain[..n]);
      var s := Fold(chain[..n]);
      CapIsNoOp(rules, s.utxos, s.supply, s.registered, chain[n]);
    }
  }

  /** The supply is at most the genesis allocations plus the emission schedule. */
  lemma {:induction false} SupplyUnderSchedule(rules: Rules, g: Block, chain: seq<Block>)
    requires ChainOk(rules, g, chain)
    ensures Fold(chain).supply <= OutSum(g.txs[0], ValueOf) + Emission(rules.blockReward, rules.halvingInterval, |chain| - 1)
    decreases |chain|
  {
    hide ChainOk, CanExtend, Acceptable, BlockOk, StateValid, BlockSubsidy, Fold, Reward, ApplyBlock, Registrations;
    LastBlock(rules, g, chain);
    var n := |chain| - 1;
    if n == 0 {
      GenesisTotal(g, ValueOf);
    } else {
      SupplyUnderSchedule(rules, g, chain[..n]);
      ChainHeights(rules, g, chain, n);
      RewardUnderSubsidy(rules, Fold(chain[..n]), chain[n]);
    }
  }

  lemma RewardUnderSubsidy(rules: Rules, s: State, b: Block)
    requires StateValid(rules, s.utxos, s.supply, s.registered, b)
    ensures Reward(s.utxos, b) <= BlockSubsidy(rules.blockReward, rules.halvingInterval, b.header.height)
  {
    hide BlockSubsidy;
    CapIsNoOp(rules, s.utxos, s.supply, s.registered, b);
  }

  /** With halvings the supply stays below allocations + 2 * reward * interval on every chain. */
  lemma {:induction false} SupplyUnderEmission(rules: Rules, g: Block, chain: seq<Block>)
    requires ChainOk(rules, g, chain) && rules.blockReward > 0 && rules.halvingInterval > 0
    ensures Fold(chain).supply < OutSum(g.txs[0], ValueOf) + 2 * rules.blockReward * rules.halvingInterval
  {
    hide ChainOk, Emission, Fold;
    SupplyUnderSchedule(rules, g, chain);
    LastBlock(rules, g, chain);
    EmissionBound(rules.blockReward, rules.halvingInterval, |chain| - 1);
  }

  lemma {:induction false} RegistrationsUnspent(m: UtxoMap, ins: seq<Input>)
    requires forall op :: op in SpendsOf(ins) ==> op in m && m[op].script.kind != Register
    ensures InSum(m, ins, IsRegistration) == 0
  {
    if |ins| > 0 {
      var n := |ins| - 1;
      assert SpendsOf(ins[..n]) <= SpendsOf(ins);
      RegistrationsUnspent(m, ins[..n]);
      assert ins[n].prevOut.IsZero() || ins[n].prevOut in SpendsOf(ins);
    }
  }

  lemma {:induction false} BlockSpendsNoRegistration(m: UtxoMap, txs: seq<Tx>)
    requires |txs| > 0 ==> IsCoinbase(txs[0])
    requires AllSpendOk(m, txs)
    ensures BlockIn(m, txs, IsRegistration) == 0
    decreases |txs|
  {
    if |txs| > 0 {
      var n := |txs| - 1;
      BlockSpendsNoRegistration(m, txs[..n]);
      if n == 0 {
        CoinbaseTakesNothing(m, txs[0], IsRegistration);
      } else {
        SpendOkInputs(txs[n], m);
        RegistrationsUnspent(m, txs[n].inputs);
      }
    }
  }

  /** The running count of sub-chain registrations is the number of registration outputs in the
      set: the count that a restart recovers by scanning it. */
  lemma {:induction false} RegisteredIsCounted(rules: Rules, g: Block, chain: seq<Block>)
    requires TxHashSound() && ChainOk(rules, g, chain)
    ensures Fold(chain).registered == Total(Fold(chain).utxos, IsRegistration)
    decreases |chain|
  {
    hide ChainOk, CanExtend, Acceptable, BlockOk;
    LastBlock(rules, g, chain);
    var n := |chain| - 1;
    if n == 0 {
      GenesisTotal(g, IsRegistration);
    } else {
      RegisteredIsCounted(rules, g, chain[..n]);
      WeightStep(rules, g, chain[..n], chain[n], IsRegistration);
      BlockSpendsNoRegistration(Fold(chain[..n]).utxos, chain[n].txs);
    }
  }

  // ---------------------------------------------------------------- tokens

  ghost function Circulating(s: State, id: TokenId): nat {
    Total(s.utxos, Keeps(id))
  }

  /** The tokens of `id` that a block issues and destroys. */
  ghost function Issued(t: Tx, id: TokenId): nat {
    if Mints(t.outputs, id) then OutSum(t, Keeps(id)) else 0
  }

  ghost function DestroyedBy(m: UtxoMap, t: Tx, id: TokenId): nat {
    if Mints(t.outputs, id) then 0 else Destroyed(t, m, id)
  }

  ghost function BlockIssued(txs: seq<Tx>, id: TokenId): nat {
    if |txs| == 0 then 0 else BlockIssued(txs[..|txs| - 1], id) + Issued(txs[|txs| - 1], id)
  }

  ghost function BlockDestroyed(m: UtxoMap, txs: seq<Tx>, id: TokenId): nat {
    if |txs| == 0 then 0 else BlockDestroyed(m, txs[..|txs| - 1], id) + DestroyedBy(m, txs[|txs| - 1], id)
  }

  lemma CoinbaseCarriesNoToken(m: UtxoMap, t: Tx, id: TokenId)
    requires CoinbaseOk(t)
    ensures OutSum(t, Keeps(id)) == 0 && InSum(m, t.inputs, Keeps(id)) == 0
    ensures !Mints(t.outputs, id) && DestroyedBy(m, t, id) == 0
  {
    assert !HasKept(t.outputs, id) && !Mints(t.outputs, id) && !HasTokenInput(m, t.inputs, id);
    NoKeptNoSum(t.outputs, id);
    CoinbaseTakesNothing(m, t, Keeps(id));
  }

  lemma {:induction false} BlockTokens(rules: Rules, m: UtxoMap, txs: seq<Tx>, id: TokenId)
    requires |txs| > 0 && CoinbaseOk(txs[0]) && AllSpendOk(m, txs) && AllTokensOk(rules, m, txs)
    ensures BlockIn(m, txs, Keeps(id)) + BlockIssued(txs, id) == BlockOut(txs, Keeps(id)) + BlockDestroyed(m, txs, id)
    decreases |txs|
  {
    var n := |txs| - 1;
    if n == 0 {
      CoinbaseCarriesNoToken(m, txs[0], id);
      assert BlockIn(m, txs[..0], Keeps(id)) == 0 && BlockOut(txs[..0], Keeps(id)) == 0;
    } else {
      BlockTokens(rules, m, txs[..n], id);
      assert SpendOk(txs[n], m) && TokenRulesOk(rules, m, txs[n]);
      TokenConservation(txs[n], m, id);
    }
  }

  /** Over any block of any valid chain the circulating amount of a token grows by what the block
      issues and shrinks by what it burns from its inputs, and by nothing else. */
  lemma {:induction false} CirculatingStep(rules: Rules, g: Block, chain: seq<Block>, b: Block, id: TokenId)
    requires TxHashSound() && ChainOk(rules, g, chain) && CanExtend(rules, chain, b)
    ensures Circulating(Fold(chain + [b]), id) + BlockDestroyed(Fold(chain).utxos, b.txs, id) == Circulating(Fold(chain), id) + BlockIssued(b.txs, id)
  {
    WeightStep(rules, g, chain, b, Keeps(id));
    BlockTokens(rules, Fold(chain).utxos, b.txs, id);
  }

  ghost predicate SpendsApart(txs: seq<Tx>) {
    forall i, j :: 0 <= i < j < |txs| ==> Spends(txs[i]) !! Spends(txs[j])
  }

  lemma ApartConcat(m: UtxoMap, before: seq<Tx>, more: seq<Tx>)
    requires SpendsApart(before) && Provenance(m, before) && Snapshot(m, more)
    ensures SpendsApart(before + more)
  {
    var all := before + more;
    forall i, j | 0 <= i < j < |all|
      ensures Spends(all[i]) !! Spends(all[j])
    {
      if i < |before| <= j {
        assert all[i] in before && all[j] == more[j - |before|];
      }
    }
  }

  /** No outpoint is spent twice on a valid chain. */
  lemma {:induction false} SpentOnce(rules: Rules, g: Block, chain: seq<Block>)
    requires TxHashSound() && ChainOk(rules, g, chain)
    ensures SpendsApart(AllTxs(chain))
    decreases |chain|
  {
    hide ChainOk, CanExtend, Acceptable, BlockOk, StateValid;
    LastBlock(rules, g, chain);
    var n := |chain| - 1;
    if n == 0 {
      assert AllTxs(chain[..0]) == [];
      assert AllTxs(chain) == g.txs;
    } else {
      SpentOnce(rules, g, chain[..n]);
      ChainProvenance(rules, g, chain[..n]);
      NextBlockFresh(rules, g, chain[..n], chain[n]);
      ApartConcat(Fold(chain[..n]).utxos, AllTxs(chain[..n]), chain[n].txs);
    }
  }

  /** What a transaction mints is named after an outpoint it spends. */
  ghost predicate MintsItsFirst(t: Tx) {
    forall id :: Mints(t.outputs, id) ==> |t.inputs| > 0 && id == DeriveTokenId(t.inputs[0].prevOut) && t.inputs[0].prevOut in Spends(t)
  }

  lemma {:induction false} ChainMints(rules: Rules, g: Block, chain: seq<Block>)
    requires ChainOk(rules, g, chain)
    ensures forall t :: t in AllTxs(chain) ==> MintsItsFirst(t)
    decreases |chain|
  {
    hide *;
    LastBlock(rules, g, chain);
    var n := |chain| - 1;
    if n == 0 {
      GenesisTxs(g);
      GenesisMints(g);
    } else {
      ChainMints(rules, g, chain[..n]);
      BlockMints(rules, Fold(chain[..n]), chain[n]);
      MintConcat(AllTxs(chain[..n]), chain[n].txs);
    }
  }

  lemma GenesisTxs(g: Block)
    requires GenesisOk(g)
    ensures AllTxs([g]) == g.txs
  {
    GenesisFold(g);
  }

  lemma MintConcat(a: seq<Tx>, b: seq<Tx>)
    requires (forall t :: t in a ==> MintsItsFirst(t)) && forall t :: t in b ==> MintsItsFirst(t)
    ensures forall t :: t in a + b ==> MintsItsFirst(t)
  {
    hide MintsItsFirst;
  }

  lemma GenesisMints(g: Block)
    requires GenesisOk(g)
    ensures forall t :: t in g.txs ==> MintsItsFirst(t)
  {
  }

  lemma BlockMints(rules: Rules, s: State, b: Block)
    requires BlockOk(b) && StateValid(rules, s.utxos, s.supply, s.registered, b)
    ensures forall t :: t in b.txs ==> MintsItsFirst(t)
  {
    forall i | 0 <= i < |b.txs|
      ensures MintsItsFirst(b.txs[i])
    {
      if i > 0 {
        assert SpendOk(b.txs[i], s.utxos) && TokenRulesOk(rules, s.utxos, b.txs[i]);
        NonCoinbaseSpends(b.txs[i]);
        MintedIsFirst(b.txs[i], s.utxos);
      }
    }
  }

  lemma MintedIsFirst(t: Tx, m: UtxoMap)
    requires TokensOk(t, m) && |t.inputs| > 0
    ensures forall id :: Mints(t.outputs, id) ==> id == DeriveTokenId(t.inputs[0].prevOut)
  {
    forall id | Mints(t.outputs, id)
      ensures id == DeriveTokenId(t.inputs[0].prevOut)
    {
      var i :| 0 <= i < |t.outputs| && MintedAt(t.outputs[i], id);
      assert TokenOutputOk(t.outputs[i], MintId(t));
    }
  }

  ghost predicate TokenIdsInjective() {
    forall a, b :: DeriveTokenId(a) == DeriveTokenId(b) ==> a == b
  }

  /** Each token is issued by at most one transaction of any valid chain. */
  lemma {:induction false} OneIssuer(rules: Rules, g: Block, chain: seq<Block>, id: TokenId, i: nat, j: nat)
    requires TxHashSound() && TokenIdsInjective() && ChainOk(rules, g, chain)
    requires i < |AllTxs(chain)| && j < |AllTxs(chain)|
    requires Mints(AllTxs(chain)[i].outputs, id) && Mints(AllTxs(chain)[j].outputs, id)
    ensures i == j
  {
    SpentOnce(rules, g, chain);
    ChainMints(rules, g, chain);
    var t, u := AllTxs(chain)[i], AllTxs(chain)[j];
    assert t in AllTxs(chain) && u in AllTxs(chain);
    assert t.inputs[0].prevOut == u.inputs[0].prevOut;
  }

  /** So a block raises the circulating amount of a token only if one of its transactions is the issuer. */
  lemma {:induction false} OnlyIssuerRaises(rules: Rules, g: Block, chain: seq<Block>, b: Block, id: TokenId)
    requires TxHashSound() && TokenIdsInjective() && ChainOk(rules, g, chain) && CanExtend(rules, chain, b)
    requires exists t :: t in AllTxs(chain) && Mints(t.outputs, id)
    ensures Circulating(Fold(chain + [b]), id) + BlockDestroyed(Fold(chain).utxos, b.txs, id) == Circulating(Fold(chain), id)
  {
    hide ChainOk, CanExtend, Acceptable, Fold, Circulating, BlockDestroyed, BlockIssued;
    CirculatingStep(rules, g, chain, b, id);
    ChainExtends(rules, g, chain, b);
    var all := AllTxs(chain + [b]);
    assert (chain + [b])[..|chain|] == chain;
    assert all == AllTxs(chain) + b.txs;
    var t :| t in AllTxs(chain) && Mints(t.outputs, id);
    var i :| 0 <= i < |AllTxs(chain)| && AllTxs(chain)[i] == t;
    forall k | 0 <= k < |b.txs|
      ensures !Mints(b.txs[k].outputs, id)
    {
      assert all[i] == t && all[|AllTxs(chain)| + k] == b.txs[k];
      if Mints(b.txs[k].outputs, id) {
        OneIssuer(rules, g, chain + [b], id, i, |AllTxs(chain)| + k);
      }
    }
    NoMintNoIssue(b.txs, id);
  }

  lemma {:induction false} NoMintNoIssue(txs: seq<Tx>, id: TokenId)
    requires forall k :: 0 <= k < |txs| ==> !Mints(txs[k].outputs, id)
    ensures BlockIssued(txs, id) == 0
  {
    if |txs| > 0 {
      assert forall k :: 0 <= k < |txs| - 1 ==> txs[..|txs| - 1][k] == txs[k];
      NoMintNoIssue(txs[..|txs| - 1], id);
    }
  }
}
