/** The genesis block and the state it starts a chain with (internal/chain/genesis.go, config/genesis.go). */
module Genesis {
  import opened Primitives
  import opened Types
  import opened Ledger
  import opened Weights
  import opened TxRules
  import opened BlockRules
  import opened StateRules
  import opened Replay
  import opened Economics
  import opened Storage
  import opened UtxoStore
  import opened BlockStore
  import opened ChainSpec
  import opened BlockEffects
  import opened ChainSteps
  import opened Merkle
  import opened Validators
  import opened Staffing

  function AllocSum(alloc: seq<(Address, Uint64)>): nat {
    if |alloc| == 0 then 0 else AllocSum(alloc[..|alloc| - 1]) + alloc[|alloc| - 1].1
  }

  lemma {:induction false} AllocMonotone(alloc: seq<(Address, Uint64)>, i: nat)
    requires i <= |alloc|
    ensures AllocSum(alloc[..i]) <= AllocSum(alloc)
    decreases |alloc| - i
  {
    if i == |alloc| {
      assert alloc[..i] == alloc;
    } else {
      assert alloc[..i + 1][..i] == alloc[..i];
      AllocMonotone(alloc, i + 1);
    }
  }

  lemma AllocStep(alloc: seq<(Address, Uint64)>, i: nat)
    requires i < |alloc|
    ensures AllocSum(alloc[..i + 1]) == AllocSum(alloc[..i]) + alloc[i].1 <= AllocSum(alloc)
  {
    assert alloc[..i + 1][..i] == alloc[..i];
    AllocMonotone(alloc, i + 1);
  }

  /** buildCoinbaseTx: the allocations in address order, or one empty output. */
  function GenesisOutputs(alloc: seq<(Address, Uint64)>): seq<Output> {
    if |alloc| == 0 then [Output(0, Script(P2PKH, seq(ADDRESS_SIZE, i => 0)), None)]
    else seq(|alloc|, i requires 0 <= i < |alloc| => Output(alloc[i].1, Script(P2PKH, alloc[i].0), None))
  }

  function GenesisTx(alloc: seq<(Address, Uint64)>): Tx {
    Tx(1, [Input(Outpoint(ZERO_HASH, 0), [], [])], GenesisOutputs(alloc), 0)
  }

  function CreateGenesisBlock(alloc: seq<(Address, Uint64)>, timestamp: Uint64): Block {
    var coinbase := GenesisTx(alloc);
    Block(Header(1, ZERO_HASH, Root([TxHash(coinbase)]), timestamp, 0, 0, 0, []), [coinbase])
  }

  lemma {:induction false} GenesisPays(alloc: seq<(Address, Uint64)>, i: nat)
    requires i <= |alloc| && |alloc| > 0
    ensures Sum(GenesisOutputs(alloc)[..i], ValueOf) == AllocSum(alloc[..i])
    decreases i
  {
    if i > 0 {
      GenesisPays(alloc, i - 1);
      SumPrefix(GenesisOutputs(alloc), ValueOf, i - 1);
      assert alloc[..i][..i - 1] == alloc[..i - 1];
    } else {
      assert alloc[..0] == [];
    }
  }

  /** What CreateGenesisBlock builds is a genesis block that pays out the allocations. */
  lemma {:induction false} GenesisIsOk(alloc: seq<(Address, Uint64)>, timestamp: Uint64)
    ensures var g := CreateGenesisBlock(alloc, timestamp);
            OutSum(g.txs[0], ValueOf) == AllocSum(alloc) && (GenesisOk(g) <==> AllocSum(alloc) <= MAX_U64)
    ensures var g := CreateGenesisBlock(alloc, timestamp);
            g.header.version == 1 && g.header.timestamp == timestamp && g.header.merkleRoot == Root(TxHashes(g.txs))
  {
    assert TxHashes(CreateGenesisBlock(alloc, timestamp).txs) == [TxHash(GenesisTx(alloc))];
    var outs := GenesisOutputs(alloc);
    if |alloc| > 0 {
      GenesisPays(alloc, |alloc|);
      assert outs[..|alloc|] == outs && alloc[..|alloc|] == alloc;
    } else {
      assert outs[..0] == [];
    }
    assert forall i :: 0 <= i < |outs| ==> PaysAddress(outs[i]);
  }

  /** And every allocation is there to be spent, at its address. */
  lemma {:induction false} GenesisPaysEach(alloc: seq<(Address, Uint64)>, timestamp: Uint64, i: nat)
    requires AllocSum(alloc) <= MAX_U64 && i < |alloc|
    ensures var g := CreateGenesisBlock(alloc, timestamp); var op := Outpoint(TxHash(g.txs[0]), i); var m := Fold([g]).utxos;
            && op in m && m[op].value == alloc[i].1 && m[op].script == Script(P2PKH, alloc[i].0) && m[op].token.None?
            && m[op].height == 0 && !m[op].coinbase && m[op].lockedUntil == 0
  {
    var g := CreateGenesisBlock(alloc, timestamp);
    var op := Outpoint(TxHash(g.txs[0]), i);
    GenesisIsOk(alloc, timestamp);
    GenesisFold(g);
    GenesisProvenance(g);
    ZeroSpendsNothing(g.txs[0]);
    CreatedIs(map[], g.txs, 0, 0, i);
    hide GenesisOk, Fold, ApplyTxs, Snapshot;
  }

  /** The overflow-checked sum of the allocations. */
  method SumAlloc(alloc: seq<(Address, Uint64)>) returns (total: Option<Uint64>)
    ensures total == if AllocSum(alloc) <= MAX_U64 then Some(AllocSum(alloc)) else None
  {
    hide AllocSum;
    var sum: Uint64 := 0;
    AllocNone(alloc);
    for i := 0 to |alloc|
      invariant sum == AllocSum(alloc[..i])
    {
      AllocStep(alloc, i);
      if alloc[i].1 > MAX_U64 - sum {
        return None;
      }
      sum := sum + alloc[i].1;
    }
    assert alloc[..|alloc|] == alloc;
    return Some(sum);
  }

  /** The allocation check of Genesis.Validate: it makes sure of the premise under which the supply
      cap holds on every chain. */
  method ValidateAlloc(alloc: seq<(Address, Uint64)>, timestamp: Uint64, maxSupply: Uint64) returns (ok: bool)
    ensures ok <==> AllocSum(alloc) <= MAX_U64 && (maxSupply > 0 ==> AllocSum(alloc) <= maxSupply)
    ensures ok ==> var g := CreateGenesisBlock(alloc, timestamp);
                   GenesisOk(g) && (maxSupply > 0 ==> OutSum(g.txs[0], ValueOf) <= maxSupply)
  {
    hide AllocSum, GenesisOk, OutSum;
    GenesisIsOk(alloc, timestamp);
    var total := SumAlloc(alloc);
    return total.Some? && !(maxSupply > 0 && total.value > maxSupply);
  }

  lemma AllocNone(alloc: seq<(Address, Uint64)>)
    ensures AllocSum(alloc[..0]) == 0
  {
  }

  lemma {:induction false} SumZero<T>(s: seq<T>, w: T -> nat)
    requires forall i :: 0 <= i < |s| ==> w(s[i]) == 0
    ensures Sum(s, w) == 0
  {
    if |s| > 0 {
      SumZero(s[..|s| - 1], w);
    }
  }

  lemma GenesisFacts(alloc: seq<(Address, Uint64)>, timestamp: Uint64)
    requires AllocSum(alloc) <= MAX_U64
    ensures var b := CreateGenesisBlock(alloc, timestamp);
            && GenesisOk(b) && b.header.height == 0
            && (forall t :: t in b.txs ==> Spends(t) == {}) && Snapshot(map[], b.txs)
            && Fold([b]) == State(ApplyBlock(map[], b), AllocSum(alloc), 0, 0)
  {
    var b := CreateGenesisBlock(alloc, timestamp);
    GenesisIsOk(alloc, timestamp);
    GenesisTotal(b, ValueOf);
    GenesisFold(b);
    GenesisProvenance(b);
    ZeroSpendsNothing(b.txs[0]);
    SumZero(b.txs[0].outputs, IsRegistration);
  }

  // ---------------------------------------------------------------- starting, and starting again

  /** The outputs of the genesis block with their index entries, and nothing else. */
  ghost function GenesisPaid(g: Block): Disk {
    var m := ApplyBlock(map[], g);
    EMPTY_DISK.(utxos := m,
                addrs := set op | op in m && ScriptAddress(m[op].script).Some? :: (ScriptAddress(m[op].script).value, op),
                stakes := set op | op in m && IsStakeScript(m[op].script) :: (m[op].script.data, op))
  }

  /** A database with some of what starting on `g` writes before the tip, and nothing else: an empty one,
      or what earlier starts left. */
  ghost predicate Startable(d: Disk, g: Block) {
    && d.tip.None? && d.height.None? && d.supply.None? && d.cumDiff.None? && d.checkpoint.None? && d.undos == map[]
    && (forall h :: h in d.blocks ==> h == g.Hash() && d.blocks[h] == g)
    && (forall n :: n in d.heights ==> n == g.header.height && d.heights[n] == g.Hash())
    && (forall h :: h in d.txs ==> h in TxEntries(g) && d.txs[h] == TxEntries(g)[h])
    && Within(d, GenesisPaid(g))
  }

  lemma EmptyIsStartable(g: Block)
    ensures Startable(EMPTY_DISK, g)
  {
  }

  lemma StartableIs(d: Disk, g: Block)
    requires Startable(d, g)
    ensures d.tip.None? && d.cumDiff.None? && CumDiffOf(d) == 0 && Within(d, GenesisPaid(g))
    ensures d.blocks[g.Hash() := g] == map[g.Hash() := g]
  {
  }

  lemma OneTransaction(g: Block)
    requires GenesisOk(g)
    ensures |g.txs| == 1 && g.header.height == 0 && Spends(g.txs[0]) == {}
  {
    ZeroSpendsNothing(g.txs[0]);
  }

  /** The outputs of a genesis block are exactly what its one transaction creates. */
  lemma {:induction false} PaidOutputs(g: Block)
    requires GenesisOk(g) && Snapshot(map[], g.txs)
    ensures IndexesOk(GenesisPaid(g)) && GenesisPaid(g).Rest() == EMPTY_DISK.Rest()
    ensures HasOutputs(GenesisPaid(g), g.txs[0], |g.txs[0].outputs|, 0, false, 0)
    ensures forall op :: op in GenesisPaid(g).utxos ==> op in Creates(g.txs[0]) && GenesisPaid(g).utxos[op] == NewUtxo(g.txs[0], op.index, 0, false, 0)
  {
    var t := g.txs[0];
    ZeroSpendsNothing(t);
    OnlyCreated(g);
    hide ApplyBlock, CreatedMap;
    assert KeysOk(GenesisPaid(g).utxos);
    forall i | 0 <= i < |t.outputs|
      ensures Has(GenesisPaid(g), NewUtxo(t, i, 0, false, 0))
    {
      assert Outpoint(TxHash(t), i) in Creates(t);
    }
  }

  lemma {:induction false} OnlyCreated(g: Block)
    requires |g.txs| == 1 && g.header.height == 0 && Spends(g.txs[0]) == {}
    ensures ApplyBlock(map[], g) == CreatedMap(g.txs[0], 0, false, 0)
  {
    var t := g.txs[0];
    assert g.txs[..0] == [];
    assert ApplyTxs(map[], [], 0) == map[];
    assert !SpendsStake(map[], t);
    var none: UtxoMap := map[];
    assert none - Spends(t) == none;
  }

  lemma OneKey<K, V>(m: map<K, V>, k: K, v: V)
    requires forall x :: x in m ==> x == k && m[x] == v
    ensures m[k := v] == map[k := v]
  {
  }

  lemma Absorbed<K, V>(m: map<K, V>, n: map<K, V>)
    requires forall x :: x in m ==> x in n && m[x] == n[x]
    ensures m + n == n
  {
  }

  /** The block's own tables are the same, whatever of them was there before. */
  lemma TablesStartedOver(d: Disk, g: Block)
    requires Startable(d, g)
    ensures d.blocks[g.Hash() := g] == map[g.Hash() := g] && d.heights[g.header.height := g.Hash()] == map[g.header.height := g.Hash()]
    ensures d.txs + TxEntries(g) == TxEntries(g)
    ensures d.tip.None? && d.height.None? && d.supply.None? && d.cumDiff.None? && d.checkpoint.None? && d.undos == map[]
  {
    hide GenesisPaid, Within, TxEntries;
    OneKey(d.blocks, g.Hash(), g);
    OneKey(d.heights, g.header.height, g.Hash());
    Absorbed(d.txs, TxEntries(g));
  }

  /** With all outputs written, the database with the block is the one an empty database would have. */
  lemma {:induction false} StartedOver(d: Disk, applied: Disk, g: Block)
    requires Startable(d, g) && applied.Rest() == d.Rest() && GenesisPaid(g).Rest() == EMPTY_DISK.Rest()
    requires applied.utxos == GenesisPaid(g).utxos && applied.addrs == GenesisPaid(g).addrs && applied.stakes == GenesisPaid(g).stakes
    ensures Indexed(applied, g) == Indexed(GenesisPaid(g), g)
  {
    RestFields(d, applied);
    RestFields(EMPTY_DISK, GenesisPaid(g));
    TablesStartedOver(d, g);
    TablesStartedOver(EMPTY_DISK, g) by {
      EmptyIsStartable(g);
    }
    hide GenesisPaid, Within, TxEntries, Startable;
  }

  lemma {:induction false} PaidStartable(g: Block)
    requires GenesisPaid(g).Rest() == EMPTY_DISK.Rest()
    ensures Startable(Indexed(GenesisPaid(g), g), g)
  {
    RestFields(EMPTY_DISK, GenesisPaid(g));
    hide GenesisPaid, TxEntries;
  }

  /** Stopped among the outputs, or among the entries of the block. */
  lemma {:induction false} StillStartable(d: Disk, d': Disk, g: Block)
    requires Startable(d, g) && Within(d', GenesisPaid(g)) && d'.Rest() == d.Rest()
    ensures Startable(d', g)
  {
    hide GenesisPaid, Within, TxEntries;
    RestFields(d, d');
  }

  lemma {:induction false} StillStartableIndexed(d: Disk, d': Disk, g: Block)
    requires Startable(d, g) && d' == d.(blocks := d'.blocks, heights := d'.heights, txs := d'.txs) && d'.txs == d.txs
    requires d'.blocks in {d.blocks, d.blocks[g.Hash() := g]} && d'.heights in {d.heights, d.heights[g.header.height := g.Hash()]}
    ensures Startable(d', g)
  {
    hide GenesisPaid, TxEntries;
  }

  /** The disk InitFromGenesis leaves is the disk of the one-block chain. */
  lemma FirstDisk(wired: bool, rules: Rules, g: Block, applied: Disk, d: Disk, minStake: nat, validators: seq<Bytes>, total: nat)
    requires GenesisOk(g) && Fold([g]) == State(ApplyBlock(map[], g), total, 0, 0)
    requires applied.Rest() == EMPTY_DISK.Rest() && applied.utxos == ApplyBlock(map[], g) && IndexesOk(applied)
    requires d == Indexed(applied, g).(tip := Some(g.Hash()), height := Some(0), supply := Some(total))
    ensures ChainOk(rules, g, [g]) && StoreOk(d, g) && HeightsAt(d, [g]) && LedgerAt(d, [g]) && UndosRight(d, [g]) && UndosComplete(d, [g])
    ensures TipIs(d, [g]) && TotalsAt(d, [g]) && d.checkpoint.None? && HeightsExact(d, [g]) && d.txs == TxIndex([g])
    ensures StaffOk(wired, rules, minStake, validators, validators, d, [g])
  {
    hide IndexesOk, Fold, ApplyBlock, Tagged, GenesisOk;
    RestFields(EMPTY_DISK, applied);
    assert g.header.height == 0 by { FirstHeight(g); }
    SameRegions(applied, d);
    assert [g][..0] == [];
    assert map[] + TxEntries(g) == TxEntries(g);
    FirstChain(rules, g);
    if Tracked(wired, rules, minStake, d) {
      forall key
        ensures key in Elements(validators) <==> key in Elements(validators) || Staked(Fold([g]).utxos, key, minStake)
      {
        NoStakeAtGenesis(g, key);
      }
    }
  }

  lemma FirstHeight(g: Block)
    requires GenesisOk(g)
    ensures g.header.height == 0
  {
  }

  lemma FirstChain(rules: Rules, g: Block)
    requires GenesisOk(g)
    ensures ChainOk(rules, g, [g])
  {
  }

  lemma NothingToSpend(t: Tx)
    requires TxOk(t) && !HasZeroInput(t)
    ensures !SpendOk(t, map[])
  {
    assert !t.inputs[0].prevOut.IsZero();
    assert !InputOk(t.inputs[0], map[]);
  }

  /** A block processed on a chain without genesis is always refused: its coinbase must pay
      something, and nothing may be minted at height 0. */
  lemma {:induction false} NoFirstBlockByProcessing(rules: Rules, b: Block)
    requires b.header.height == 0 && BlockOk(b)
    ensures !StateValid(rules, map[], 0, 0, b)
  {
    if |b.txs| > 1 {
      NothingToSpend(b.txs[1]);
    } else {
      if CoinbaseOk(b.txs[0]) {
        var t := b.txs[0];
        assert TxOk(t);
        assert OutputOk(t.outputs[0]) && CoinbaseOutputOk(t.outputs[0]);
        assert t.outputs[..1] == [t.outputs[0]];
        SumPrefix(t.outputs, ValueOf, 0);
        SumMonotone(t.outputs, ValueOf, 1);
      }
    }
  }
}
