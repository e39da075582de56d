/** Block production (internal/miner/miner.go) against validation: which blocks that a miner assembles
    on top of a valid chain extend it. */
module Mining {
  import opened Primitives
  import opened Arithmetic
  import opened Types
  import opened Ledger
  import opened Weights
  import opened Sorting
  import opened TxRules
  import opened BlockRules
  import opened Merkle
  import opened Subsidy
  import opened StateRules
  import opened Replay
  import opened Poa
  import opened Signing
  import opened Storage
  import opened ChainSpec
  import opened UtxoStore
  import opened Validators
  import opened Staffing
  import opened Chain

  /** What the miner reads from the chain. */
  datatype Tip = Tip(hash: Hash, height: Uint64, timestamp: Uint64, supply: Uint64)

  function BuildCoinbase(addr: Address, reward: Uint64, height: Uint64): Tx {
    Tx(1, [Input(Outpoint(ZERO_HASH, 0), HeightTag(height), [])], [Output(reward, Script(P2PKH, addr), None)], 0)
  }

  predicate HashLe(t: Tx, u: Tx) {
    TxHash(t) <= TxHash(u)
  }

  function Itself(x: Uint64): nat {
    x
  }

  /** A block as produceBlock puts it together from the transactions it selected: the coinbase claims
      the subsidy, cut back to the cap, and the fees (a sum that wraps), and the rest follows by hash. */
  ghost predicate Assembled(b: Block, rules: Rules, tip: Tip, selected: seq<Tx>, fees: seq<Uint64>, addr: Address) {
    && |b.txs| > 0
    && b.txs[0] == BuildCoinbase(addr, Add64(AllowedMint(rules, tip.supply, b.header.height), Sum(fees, Itself)), b.header.height)
    && multiset(b.txs[1..]) == multiset(selected) && SortedBy(HashLe, b.txs[1..])
    && b.header.version == 1 && b.header.prevHash == tip.hash && b.header.height == tip.height + 1
    && b.header.merkleRoot == Root(TxHashes(b.txs)) && tip.timestamp < b.header.timestamp
  }

  /** ProduceBlockAt. The difficulty and the signature that Prepare and Seal add are parameters. */
  method ProduceBlock(rules: Rules, tip: Tip, selected: seq<Tx>, fees: seq<Uint64>, addr: Address, now: Uint64, difficulty: Uint64, sig: Bytes)
    returns (b: Block)
    requires tip.height < MAX_U64 && tip.timestamp < MAX_U64
    ensures Assembled(b, rules, tip, selected, fees, addr)
    ensures b.header.timestamp == Max(now, tip.timestamp + 1) && b.header.difficulty == difficulty && b.header.validatorSig == sig
    ensures b.txs[0].version == 1 && b.txs[0].lockTime == 0 && |b.txs[0].inputs| == 1 && b.txs[0].inputs[0].prevOut == Outpoint(0, 0)
    ensures b.txs[0].outputs == [Output((AllowedMint(rules, tip.supply, tip.height + 1) + Sum(fees, Itself)) % TWO_64, Script(P2PKH, addr), None)]
  {
    hide Assembled, AllowedMint, Sum, SortedBy, Root, HashLe, HeightTag, BuildCoinbase;
    var timestamp := now;
    if timestamp <= tip.timestamp {
      timestamp := tip.timestamp + 1;
    }
    var totalFees := TotalFees(fees);
    var reward := RewardFor(rules, tip);
    HashOrder();
    var sorted := SortSlice(selected, HashLe);
    var coinbase := BuildCoinbase(addr, Add64(reward, totalFees), tip.height + 1);
    WrapsOnce(reward, Sum(fees, Itself));
    CoinbaseParts(addr, Add64(reward, totalFees), tip.height + 1);
    var txs := [coinbase] + sorted;
    var merkle := ComputeMerkleRoot(TxHashes(txs));
    b := Block(Header(1, tip.hash, merkle, timestamp, tip.height + 1, difficulty, 0, sig), txs);
    hide *;
    MakeAssembled(b, rules, tip, selected, fees, addr, sorted);
  }

  lemma CoinbaseParts(addr: Address, reward: Uint64, height: Uint64)
    ensures var t := BuildCoinbase(addr, reward, height);
            && t.version == 1 && t.lockTime == 0 && |t.inputs| == 1 && t.inputs[0].prevOut == Outpoint(0, 0)
            && t.outputs == [Output(reward, Script(P2PKH, addr), None)]
  {
  }

  lemma MakeAssembled(b: Block, rules: Rules, tip: Tip, selected: seq<Tx>, fees: seq<Uint64>, addr: Address, sorted: seq<Tx>)
    requires b.header.height == tip.height + 1 && b.header.version == 1 && b.header.prevHash == tip.hash && tip.timestamp < b.header.timestamp
    requires b.txs == [BuildCoinbase(addr, Add64(AllowedMint(rules, tip.supply, b.header.height), Sum(fees, Itself)), b.header.height)] + sorted
    requires multiset(sorted) == multiset(selected) && SortedBy(HashLe, sorted) && b.header.merkleRoot == Root(TxHashes(b.txs))
    ensures Assembled(b, rules, tip, selected, fees, addr)
  {
    assert b.txs[1..] == sorted;
    hide AllowedMint, Sum, BuildCoinbase, SortedBy, Root, Add64;
  }

  /** The subsidy of the next block, cut back to what the cap leaves. */
  method RewardFor(rules: Rules, tip: Tip) returns (reward: Uint64)
    requires tip.height < MAX_U64
    ensures reward == AllowedMint(rules, tip.supply, tip.height + 1)
  {
    ShareFits(rules, tip.supply, tip.height + 1);
    SubsidyFits(rules.blockReward, rules.halvingInterval, tip.height + 1);
    reward := BlockSubsidy(rules.blockReward, rules.halvingInterval, tip.height + 1);
    if rules.maxSupply > 0 {
      if tip.supply >= rules.maxSupply {
        reward := 0;
      } else if reward > rules.maxSupply - tip.supply {
        reward := rules.maxSupply - tip.supply;
      }
    }
  }

  lemma SubsidyFits(reward: nat, interval: nat, height: nat)
    ensures BlockSubsidy(reward, interval, height) <= reward
  {
  }

  /** The loop over the selected transactions; the sum wraps. */
  method TotalFees(fees: seq<Uint64>) returns (total: Uint64)
    ensures total == Sum(fees, Itself) % TWO_64
  {
    total := 0;
    for i := 0 to |fees|
      invariant total == Sum(fees[..i], Itself) % TWO_64
    {
      SumPrefix(fees, Itself, i);
      WrapsOnce(fees[i], Sum(fees[..i], Itself));
      total := Add64(total, fees[i]);
    }
    assert fees[..|fees|] == fees;
  }

  lemma WrapsOnce(a: nat, b: nat)
    ensures Add64(a, b % TWO_64) == Add64(b % TWO_64, a) == Add64(a, b) == (b + a) % TWO_64
  {
    ModShift(a + b % TWO_64, b / TWO_64, TWO_64);
  }

  lemma HashOrder()
    ensures TotalPreorder(HashLe)
  {
  }

  // ---------------------------------------------------------------- what the miner may select

  ghost predicate Spendable(rules: Rules, m: UtxoMap, height: Uint64, t: Tx) {
    SpendOk(t, m) && !HasZeroInput(t) && TxMature(m, t, height) && TokenRulesOk(rules, m, t) && StakeExact(rules, t)
  }

  /** Transactions that are each good against the ledger, and that spend nothing in common. */
  ghost predicate Selectable(rules: Rules, m: UtxoMap, height: Uint64, selected: seq<Tx>) {
    && |selected| < MAX_BLOCK_TXS && Distinct(selected)
    && (forall t :: t in selected ==> Spendable(rules, m, height, t))
    && (forall t, u :: t in selected && u in selected && t != u ==> Spends(t) !! Spends(u) && TxHash(t) != TxHash(u))
  }

  ghost function FeeIn(m: UtxoMap): Tx -> nat {
    t => TxFee(m, t)
  }

  /** The pool's fees are what the transactions leave. */
  ghost predicate FeesOf(m: UtxoMap, selected: seq<Tx>, fees: seq<Uint64>) {
    |fees| == |selected| && forall i :: 0 <= i < |fees| ==> fees[i] == TxFee(m, selected[i])
  }

  lemma {:induction false} SumOfFees(m: UtxoMap, selected: seq<Tx>, fees: seq<Uint64>)
    requires FeesOf(m, selected, fees)
    ensures Sum(fees, Itself) == Sum(selected, FeeIn(m))
  {
    if |fees| > 0 {
      SumOfFees(m, selected[..|fees| - 1], fees[..|fees| - 1]);
    }
  }

  lemma {:induction false} FeesAreSum(m: UtxoMap, txs: seq<Tx>)
    requires |txs| > 0
    ensures Fees(m, txs) == Sum(txs[1..], FeeIn(m))
    decreases |txs|
  {
    var n := |txs| - 1;
    if n > 0 {
      FeesAreSum(m, txs[..n]);
      assert txs[..n][1..] == txs[1..][..n - 1];
    }
  }

  lemma {:induction false} SumWithout<T>(s: seq<T>, w: T -> nat, i: nat)
    requires i < |s|
    ensures Sum(s, w) == Sum(s[..i] + s[i + 1..], w) + w(s[i])
    decreases |s|
  {
    var n := |s| - 1;
    if i < n {
      SumWithout(s[..n], w, i);
      var rest := s[..i] + s[i + 1..];
      assert rest[..n - 1] == s[..n][..i] + s[..n][i + 1..] && rest[n - 1] == s[n];
    } else {
      assert s[..i] + s[i + 1..] == s[..n];
    }
  }

  /** A sum does not depend on the order. */
  lemma {:induction false} SumPermutes<T>(a: seq<T>, b: seq<T>, w: T -> nat)
    requires multiset(a) == multiset(b)
    ensures Sum(a, w) == Sum(b, w)
    decreases |a|
  {
    MultisetElements(a, b);
    if |a| > 0 {
      var n := |a| - 1;
      assert a == a[..n] + [a[n]];
      assert a[n] in multiset(b);
      var i :| 0 <= i < |b| && b[i] == a[n];
      var rest := b[..i] + b[i + 1..];
      assert b == b[..i] + [b[i]] + b[i + 1..];
      assert multiset(rest) == multiset(b) - multiset{b[i]};
      SumPermutes(a[..n], rest, w);
      SumWithout(b, w, i);
    }
  }

  // ---------------------------------------------------------------- what is accepted

  lemma CoinbaseSums(addr: Address, reward: Uint64, height: Uint64)
    ensures var t := BuildCoinbase(addr, reward, height);
            && OutSum(t, ValueOf) == reward <= MAX_U64 && OutSum(t, IsRegistration) == 0
            && IsCoinbase(t) && CoinbaseOk(t) && Spends(t) == {} && (TxOk(t) <==> reward > 0)
  {
    var t := BuildCoinbase(addr, reward, height);
    SumOfOne(t.outputs[0], ValueOf);
    SumOfOne(t.outputs[0], IsRegistration);
    assert OutputOk(t.outputs[0]) <==> reward > 0;
  }

  lemma SumOfOne<T>(x: T, w: T -> nat)
    ensures Sum([x], w) == w(x)
  {
    assert [x][..0] == [];
  }

  lemma WrapsBelow(share: nat, fees: nat)
    requires share <= MAX_U64 && fees <= MAX_U64
    ensures Add64(share, fees) == (if share + fees <= MAX_U64 then share + fees else share + fees - TWO_64)
  {
  }

  /** Sorting keeps the selection what it was. */
  lemma {:induction false} TailIsSelection(rules: Rules, m: UtxoMap, height: Uint64, selected: seq<Tx>, txs: seq<Tx>)
    requires Selectable(rules, m, height, selected) && |txs| > 0
    requires multiset(txs[1..]) == multiset(selected) && SortedBy(HashLe, txs[1..])
    ensures |txs| <= MAX_BLOCK_TXS && Canonical(txs)
    ensures forall i :: 1 <= i < |txs| ==> Spendable(rules, m, height, txs[i])
    ensures forall i, j :: 1 <= i < j < |txs| ==> Spends(txs[i]) !! Spends(txs[j])
  {
    hide Spendable, Spends;
    var tail := txs[1..];
    MultisetElements(tail, selected);
    DistinctPermutes(selected, tail);
    forall i | 1 <= i < |txs|
      ensures txs[i] in selected && Spendable(rules, m, height, txs[i])
    {
      assert tail[i - 1] == txs[i] && txs[i] in Elements(tail);
    }
    forall i, j | 1 <= i < j < |txs|
      ensures txs[i] != txs[j] && HashLe(txs[i], txs[j]) && Spends(txs[i]) !! Spends(txs[j])
    {
      assert tail[i - 1] == txs[i] && tail[j - 1] == txs[j];
    }
  }

  lemma {:induction false} StructureExactlyWhen(rules: Rules, m: UtxoMap, tip: Tip, b: Block, selected: seq<Tx>, fees: seq<Uint64>, addr: Address)
    requires Assembled(b, rules, tip, selected, fees, addr) && Selectable(rules, m, b.header.height, selected)
    ensures BlockOk(b) <==> OutSum(b.txs[0], ValueOf) > 0 && HEADER_SIZE + TxsSize(b.txs) <= MAX_BLOCK_SIZE
  {
    hide TxOk, Selectable, Root, SpendOk, TokenRulesOk, TxMature, Spends, HasZeroInput, OutSum, SortedBy, AllowedMint, TxsSize;
    var t := b.txs[0];
    CoinbaseSums(addr, t.outputs[0].value, b.header.height);
    TailIsSelection(rules, m, b.header.height, selected, b.txs);
    forall i | 1 <= i < |b.txs|
      ensures TxOk(b.txs[i]) && !HasZeroInput(b.txs[i])
    {
      assert Spendable(rules, m, b.header.height, b.txs[i]);
      SpendOkIs(b.txs[i], m);
    }
  }

  /** The coinbase mints what the cap leaves of the subsidy, or, if its sum wrapped, nothing. */
  lemma {:induction false} MintsItsShare(rules: Rules, m: UtxoMap, tip: Tip, b: Block, selected: seq<Tx>, fees: seq<Uint64>, addr: Address)
    requires Assembled(b, rules, tip, selected, fees, addr) && FeesOf(m, selected, fees) && Fees(m, b.txs) <= MAX_U64
    ensures var share := AllowedMint(rules, tip.supply, b.header.height);
            && Minted(m, b.txs) == (if share + Fees(m, b.txs) <= MAX_U64 then share else 0)
            && OutSum(b.txs[0], ValueOf) == Add64(share, Fees(m, b.txs))
  {
    var share := AllowedMint(rules, tip.supply, b.header.height);
    ShareFits(rules, tip.supply, b.header.height);
    AssembledIs(b, rules, tip, selected, fees, addr);
    SumOfFees(m, selected, fees);
    SumPermutes(selected, b.txs[1..], FeeIn(m));
    FeesAreSum(m, b.txs);
    CoinbaseSums(addr, Add64(share, Sum(fees, Itself)), b.header.height);
    WrapsBelow(share, Fees(m, b.txs));
    hide Fees, Sum, AllowedMint, FeesOf, Assembled, OutSum, Add64, BuildCoinbase;
  }

  lemma ShareFits(rules: Rules, supply: nat, height: nat)
    ensures AllowedMint(rules, supply, height) <= rules.blockReward
  {
  }

  /** What a miner can check about a block it assembled. */
  ghost predicate Publishable(rules: Rules, s: State, b: Block)
    requires |b.txs| > 0
  {
    && OutSum(b.txs[0], ValueOf) > 0
    && Fees(s.utxos, b.txs) <= MAX_U64
    && HEADER_SIZE + TxsSize(b.txs) <= MAX_BLOCK_SIZE
    && AllRegistrationsOk(rules, s.registered, b.txs)
    && s.supply + Minted(s.utxos, b.txs) <= MAX_U64 && s.cumDiff + b.header.difficulty <= MAX_U64
  }

  ghost predicate TipOf(tip: Tip, chain: seq<Block>) {
    && |chain| > 0 && tip.hash == chain[|chain| - 1].Hash()
    && tip.height == |chain| - 1 && tip.supply == Fold(chain).supply
  }

  /** What a miner assembles from spendable transactions extends the chain exactly when it pays its
      coinbase anything, is not too large, and its sums and registrations hold. */
  lemma {:induction false} AssembledExtendsExactlyWhen(rules: Rules, chain: seq<Block>, tip: Tip, b: Block, selected: seq<Tx>, fees: seq<Uint64>, addr: Address)
    requires TipOf(tip, chain) && Assembled(b, rules, tip, selected, fees, addr)
    requires Selectable(rules, Fold(chain).utxos, b.header.height, selected) && FeesOf(Fold(chain).utxos, selected, fees)
    ensures CanExtend(rules, chain, b) <==> Publishable(rules, Fold(chain), b)
  {
    hide *;
    var s := Fold(chain);
    AssembledIs(b, rules, tip, selected, fees, addr);
    TipOfIs(tip, chain);
    StructureExactlyWhen(rules, s.utxos, tip, b, selected, fees, addr);
    TailIsSelection(rules, s.utxos, b.header.height, selected, b.txs);
    CoinbaseSums(addr, Add64(AllowedMint(rules, tip.supply, b.header.height), Sum(fees, Itself)), b.header.height);
    if Fees(s.utxos, b.txs) <= MAX_U64 {
      MintsItsShare(rules, s.utxos, tip, b, selected, fees, addr);
    }
    StateExactlyWhen(rules, s, b);
    FoldStep(chain, b);
    ExtendsIs(rules, chain, b);
  }

  lemma TipOfIs(tip: Tip, chain: seq<Block>)
    requires TipOf(tip, chain)
    ensures |chain| > 0 && tip.hash == chain[|chain| - 1].Hash() && tip.height == |chain| - 1 && tip.supply == Fold(chain).supply
  {
  }

  lemma AssembledIs(b: Block, rules: Rules, tip: Tip, selected: seq<Tx>, fees: seq<Uint64>, addr: Address)
    requires Assembled(b, rules, tip, selected, fees, addr)
    ensures |b.txs| > 0 && b.header.prevHash == tip.hash && b.header.height == tip.height + 1 && Tagged(b)
    ensures b.txs[0] == BuildCoinbase(addr, Add64(AllowedMint(rules, tip.supply, b.header.height), Sum(fees, Itself)), b.header.height)
    ensures multiset(b.txs[1..]) == multiset(selected) && SortedBy(HashLe, b.txs[1..])
  {
    hide AllowedMint, SortedBy, Root, Sum;
  }

  lemma {:induction false} StateExactlyWhen(rules: Rules, s: State, b: Block)
    requires |b.txs| > 0 && CoinbaseOk(b.txs[0]) && OutSum(b.txs[0], ValueOf) <= MAX_U64
    requires forall i :: 1 <= i < |b.txs| ==> Spendable(rules, s.utxos, b.header.height, b.txs[i])
    requires Fees(s.utxos, b.txs) <= MAX_U64 ==> Minted(s.utxos, b.txs) <= AllowedMint(rules, s.supply, b.header.height)
    ensures StateValid(rules, s.utxos, s.supply, s.registered, b) <==>
            Fees(s.utxos, b.txs) <= MAX_U64 && AllRegistrationsOk(rules, s.registered, b.txs)
  {
    hide SpendOk, TokenRulesOk, HasZeroInput, StakeExact, OutSum, Fees, Minted, AllowedMint, AllRegistrationsOk, InputMature;
    forall i | 1 <= i < |b.txs|
      ensures SpendOk(b.txs[i], s.utxos) && !HasZeroInput(b.txs[i]) && TxMature(s.utxos, b.txs[i], b.header.height)
      ensures TokenRulesOk(rules, s.utxos, b.txs[i]) && StakeExact(rules, b.txs[i])
    {
      assert Spendable(rules, s.utxos, b.header.height, b.txs[i]);
    }
    ZeroIsMature(s.utxos, b.txs[0], b.header.height);
  }

  lemma ZeroIsMature(m: UtxoMap, t: Tx, height: Uint64)
    requires IsCoinbase(t)
    ensures TxMature(m, t, height)
  {
  }

  lemma ExtendsIs(rules: Rules, chain: seq<Block>, b: Block)
    requires |chain| > 0 && b.header.height == |chain| && b.header.prevHash == chain[|chain| - 1].Hash() && Tagged(b) && |b.txs| > 0
    requires Fold(chain + [b]) == Advance(Fold(chain), b)
    requires BlockOk(b) <==> OutSum(b.txs[0], ValueOf) > 0 && HEADER_SIZE + TxsSize(b.txs) <= MAX_BLOCK_SIZE
    requires StateValid(rules, Fold(chain).utxos, Fold(chain).supply, Fold(chain).registered, b) <==>
             Fees(Fold(chain).utxos, b.txs) <= MAX_U64 && AllRegistrationsOk(rules, Fold(chain).registered, b.txs)
    ensures CanExtend(rules, chain, b) <==> Publishable(rules, Fold(chain), b)
  {
    hide BlockOk, StateValid, Fold, OutSum, Fees, Minted, AllRegistrationsOk, TxsSize, ApplyBlock, Registrations, Tagged;
  }

  /** And the node takes it exactly when it is also signed in turn, not signed too often, and not ahead
      of the clock. */
  lemma {:induction false} NodeTakesExactlyWhen(n: Node, tip: Tip, b: Block, selected: seq<Tx>, fees: seq<Uint64>, addr: Address, now: nat)
    requires n.Core()
    requires tip.hash == n.tipHash && tip.height == n.height && tip.timestamp == n.tipTimestamp && tip.supply == n.supply
    requires Assembled(b, n.rules, tip, selected, fees, addr)
    requires Selectable(n.rules, n.db.disk.utxos, b.header.height, selected) && FeesOf(n.db.disk.utxos, selected, fees)
    ensures n.Extends(b, now) <==>
            && Publishable(n.rules, Fold(n.active), b) && b.Hash() !in n.db.disk.blocks && b.header.timestamp <= now + MAX_DRIFT
            && n.engine.HeaderOk(n.db.disk, b.header) && SigningOk(n.engine.validators, n.db.disk, b.header)
  {
    hide *;
    n.CoreFacts();
    n.ObjectFacts();
    n.EngineFacts();
    NodeTip(n, tip);
    LedgerIs(n.db.disk, n.active);
    LaterThanTip(b, n.rules, tip, selected, fees, addr);
    AssembledExtendsExactlyWhen(n.rules, n.active, tip, b, selected, fees, addr);
    ExtendsExactlyWhen(n, b, now);
  }

  /** While the set follows the ledger, whoever is in it may sign: what a validator prepares is authorised. */
  lemma {:induction false} PreparedIsAuthorised(n: Node, header: Header, key: Bytes, sig: Bytes)
    requires n.Core() && Tracked(n.wired, n.rules, n.engine.minStake, n.db.disk)
    requires OnlyKey(n.engine.validators, Prepared(n.engine.validators, header, key, n.engine.blockTime).(validatorSig := sig), key)
    ensures n.engine.HeaderOk(n.db.disk, Prepared(n.engine.validators, header, key, n.engine.blockTime).(validatorSig := sig))
  {
    hide *;
    n.CoreFacts();
    n.ObjectFacts();
    n.EngineFacts();
    LedgerIs(n.db.disk, n.active);
    StaffedKey(n.wired, n.rules, n.engine.minStake, n.engine.genesisValidators, n.engine.validators, n.db.disk, n.active, key);
    KeyIsIn(n.engine.validators, Prepared(n.engine.validators, header, key, n.engine.blockTime).(validatorSig := sig), key);
    n.engine.PreparedOkExactlyWhen(n.db.disk, header, key, sig);
  }

  lemma KeyIsIn(validators: seq<Bytes>, header: Header, key: Bytes)
    requires OnlyKey(validators, header, key)
    ensures key in validators
  {
  }

  lemma {:induction false} StaffedKey(wired: bool, rules: Rules, minStake: nat, founders: seq<Bytes>, validators: seq<Bytes>, d: Disk, chain: seq<Block>, key: Bytes)
    requires StaffOk(wired, rules, minStake, founders, validators, d, chain) && Tracked(wired, rules, minStake, d)
    ensures key in validators && key !in founders ==> |key| == PUBKEY_SIZE && Total(Fold(chain).utxos, StakeOf(key)) >= minStake
  {
    hide FixedSet, SignedChain, Fold;
    if key in validators && key !in founders {
      assert key in Elements(validators) && key !in Elements(founders);
      var m := Fold(chain).utxos;
      MapSumPositive(m, Lift(StakeOf(key)));
      var op :| op in m && Lift(StakeOf(key))(m[op]) > 0;
      assert StakeOf(key)(AsOutput(m[op])) > 0;
    }
  }

  lemma NodeTip(n: Node, tip: Tip)
    requires |n.active| > 0 && n.height == |n.active| - 1 && n.tipHash == n.active[|n.active| - 1].Hash() && n.supply == Fold(n.active).supply
    requires tip.hash == n.tipHash && tip.height == n.height && tip.supply == n.supply
    ensures TipOf(tip, n.active)
  {
  }

  lemma LedgerIs(d: Disk, chain: seq<Block>)
    requires LedgerAt(d, chain)
    ensures d.utxos == Fold(chain).utxos
  {
  }

  lemma LaterThanTip(b: Block, rules: Rules, tip: Tip, selected: seq<Tx>, fees: seq<Uint64>, addr: Address)
    requires Assembled(b, rules, tip, selected, fees, addr)
    ensures tip.timestamp < b.header.timestamp
  {
  }

  lemma ExtendsExactlyWhen(n: Node, b: Block, now: nat)
    requires n.engine.blockTime > 0 && |n.active| > 0 && b.header.timestamp >= n.active[|n.active| - 1].header.timestamp
    ensures n.Extends(b, now) <==>
            && CanExtend(n.rules, n.active, b) && b.Hash() !in n.db.disk.blocks && b.header.timestamp <= now + MAX_DRIFT
            && n.engine.HeaderOk(n.db.disk, b.header) && SigningOk(n.engine.validators, n.db.disk, b.header)
  {
    hide BlockOk, StateValid, SigningOk, Fits, Tagged;
  }

  // ---------------------------------------------------------------- when the subsidy has ended

  /** No block is accepted for nothing: a coinbase output must have value, so what the rules let a block
      mint and the fees it collects are never both zero. */
  lemma {:induction false} AcceptablePays(rules: Rules, chain: seq<Block>, b: Block)
    requires CanExtend(rules, chain, b)
    ensures AllowedMint(rules, Fold(chain).supply, |chain|) + Fees(Fold(chain).utxos, b.txs) > 0
  {
    hide Fold, AllowedMint, Fees, AllSpendOk, AllTokensOk, AllRegistrationsOk, AllMature, AllStakesExact, Fits, Root;
    var t := b.txs[0];
    assert TxOk(t) && OutputOk(t.outputs[0]) && CoinbaseOutputOk(t.outputs[0]);
    FirstCounts(t.outputs, ValueOf);
  }

  lemma {:induction false} FirstCounts<T>(s: seq<T>, w: T -> nat)
    requires |s| > 0
    ensures Sum(s, w) >= w(s[0])
  {
    SumPrefix(s, w, 0);
    SumMonotone(s, w, 1);
  }

  /** Once the supply has reached the cap, every further block of a valid chain collects fees. */
  lemma {:induction false} AfterTheCap(rules: Rules, g: Block, chain: seq<Block>, n: nat, i: nat)
    requires ChainOk(rules, g, chain) && 1 <= n <= i < |chain|
    requires 0 < rules.maxSupply <= Fold(chain[..n]).supply
    ensures rules.maxSupply <= Fold(chain[..i]).supply
    ensures Fees(Fold(chain[..i]).utxos, chain[i].txs) > 0
    decreases i
  {
    hide Fold, ChainOk, CanExtend, Fees;
    if n < i {
      AfterTheCap(rules, g, chain, n, i - 1);
      FoldPrefix(chain, i - 1);
      SupplyGrows(Fold(chain[..i - 1]), chain[i - 1]);
    }
    NextIs(rules, g, chain, i);
    AcceptablePays(rules, chain[..i], chain[i]);
    NothingLeft(rules, Fold(chain[..i]).supply, i);
  }

  lemma NextIs(rules: Rules, g: Block, chain: seq<Block>, i: nat)
    requires ChainOk(rules, g, chain) && 1 <= i < |chain|
    ensures CanExtend(rules, chain[..i], chain[i])
  {
  }

  lemma SupplyGrows(s: State, b: Block)
    ensures Advance(s, b).supply >= s.supply
  {
  }

  lemma NothingLeft(rules: Rules, supply: nat, height: nat)
    requires 0 < rules.maxSupply <= supply
    ensures AllowedMint(rules, supply, height) == 0
  {
  }

  /** Without transactions to include, the block a miner makes is accepted exactly while there is a
      subsidy left: it does not stop making blocks, but nobody takes them. */
  lemma {:induction false} EmptyBlockExactlyWhen(rules: Rules, chain: seq<Block>, tip: Tip, b: Block, addr: Address)
    requires TipOf(tip, chain) && Assembled(b, rules, tip, [], [], addr)
    requires HEADER_SIZE + SigningSize(b.txs[0]) <= MAX_BLOCK_SIZE
    requires Fold(chain).supply + AllowedMint(rules, tip.supply, b.header.height) <= MAX_U64 && Fold(chain).cumDiff + b.header.difficulty <= MAX_U64
    ensures CanExtend(rules, chain, b) <==> AllowedMint(rules, Fold(chain).supply, |chain|) > 0
  {
    hide *;
    var none: seq<Uint64> := [];
    AssembledIs(b, rules, tip, [], none, addr);
    TipOfIs(tip, chain);
    var s, share := Fold(chain), AllowedMint(rules, tip.supply, b.header.height);
    NothingSelected(rules, s.utxos, b.header.height);
    MultisetElements(b.txs[1..], []);
    assert b.txs == [b.txs[0]];
    Alone(b.txs[0], s.utxos);
    ShareFits(rules, tip.supply, b.header.height);
    CoinbaseShape(addr, Add64(share, Sum(none, Itself)), b.header.height);
    CoinbaseSums(addr, Add64(share, Sum(none, Itself)), b.header.height);
    MintsItsShare(rules, s.utxos, tip, b, [], none, addr);
    WrapsBelow(share, 0);
    CoinbaseRegistersNothing(rules, s.registered, b.txs[0]);
    AssembledExtendsExactlyWhen(rules, chain, tip, b, [], none, addr);
    PublishableIs(rules, s, b);
  }

  lemma NothingSelected(rules: Rules, m: UtxoMap, height: Uint64)
    ensures var none: seq<Uint64> := []; Selectable(rules, m, height, []) && FeesOf(m, [], none) && Sum(none, Itself) == 0
  {
  }

  lemma Alone(t: Tx, m: UtxoMap)
    ensures Fees(m, [t]) == 0 <= MAX_U64 && TxsSize([t]) == SigningSize(t)
  {
    SumOfOne(t, SigningSize);
  }

  lemma CoinbaseShape(addr: Address, reward: Uint64, height: Uint64)
    ensures var t := BuildCoinbase(addr, reward, height); |t.outputs| == 1 && t.outputs[0].script.kind == P2PKH
  {
  }

  lemma CoinbaseRegistersNothing(rules: Rules, existing: nat, t: Tx)
    requires |t.outputs| == 1 && t.outputs[0].script.kind == P2PKH && OutSum(t, IsRegistration) == 0
    ensures AllRegistrationsOk(rules, existing, [t])
  {
    assert [t][..0] == [];
    assert BlockOut([t], IsRegistration) == 0;
    assert RegistrationsOkAt(rules, existing, [t], 0);
  }

  lemma PublishableIs(rules: Rules, s: State, b: Block)
    requires |b.txs| > 0
    ensures Publishable(rules, s, b) <==>
            && OutSum(b.txs[0], ValueOf) > 0
            && Fees(s.utxos, b.txs) <= MAX_U64
            && HEADER_SIZE + TxsSize(b.txs) <= MAX_BLOCK_SIZE
            && AllRegistrationsOk(rules, s.registered, b.txs)
            && s.supply + Minted(s.utxos, b.txs) <= MAX_U64 && s.cumDiff + b.header.difficulty <= MAX_U64
  {
  }
}
