/** The rules a block must meet against the ledger it extends (internal/chain/processor.go). */
module StateRules {
  import opened Primitives
  import opened Types
  import opened Weights
  import opened TxRules
  import opened Tokens
  import opened BlockRules
  import opened Subsidy

  /** The consensus parameters a chain enforces. `registration` is the pluggable validator of
      sub-chain registrations; a chain without one uses a constant true. */
  datatype Rules = Rules(maxSupply: Uint64, blockReward: Uint64, halvingInterval: Uint64, validatorStake: Uint64,
                         allowMinting: bool, registration: (Output, nat, nat) -> bool)

  // ---------------------------------------------------------------- rewards

  function TxFee(m: UtxoMap, t: Tx): nat {
    if InSum(m, t.inputs, ValueOf) > OutSum(t, ValueOf) then InSum(m, t.inputs, ValueOf) - OutSum(t, ValueOf) else 0
  }

  /** The fees of the transactions after the coinbase. */
  function Fees(m: UtxoMap, txs: seq<Tx>): nat {
    if |txs| <= 1 then 0 else Fees(m, txs[..|txs| - 1]) + TxFee(m, txs[|txs| - 1])
  }

  /** New coins: what the coinbase pays out beyond the recycled fees. */
  function Minted(m: UtxoMap, txs: seq<Tx>): nat
    requires |txs| > 0
  {
    var coinbase := OutSum(txs[0], ValueOf);
    if coinbase > Fees(m, txs) then coinbase - Fees(m, txs) else 0
  }

  /** A reward cut back to what the supply cap leaves. */
  function Capped(maxSupply: nat, supply: nat, reward: nat): nat {
    if maxSupply == 0 then reward
    else if supply >= maxSupply then 0
    else Min(reward, maxSupply - supply)
  }

  function AllowedMint(rules: Rules, supply: nat, height: nat): nat {
    Capped(rules.maxSupply, supply, BlockSubsidy(rules.blockReward, rules.halvingInterval, height))
  }

  lemma {:induction false} FeesStep(m: UtxoMap, txs: seq<Tx>, i: nat)
    requires 1 <= i < |txs|
    ensures Fees(m, txs[..i + 1]) == Fees(m, txs[..i]) + TxFee(m, txs[i])
  {
    assert txs[..i + 1][..i] == txs[..i];
  }

  lemma {:induction false} FeesMonotone(m: UtxoMap, txs: seq<Tx>, i: nat)
    requires 1 <= i <= |txs|
    ensures Fees(m, txs[..i]) <= Fees(m, txs)
    decreases |txs| - i
  {
    if i == |txs| {
      assert txs[..i] == txs;
    } else {
      FeesStep(m, txs, i);
      FeesMonotone(m, txs, i + 1);
    }
  }

  // ---------------------------------------------------------------- the rules

  predicate CoinbaseOutputOk(o: Output) {
    o.script.kind != Mint && o.token.None?
  }

  predicate InputMature(m: UtxoMap, op: Outpoint, height: Uint64) {
    op.IsZero() || op !in m ||
    (&& !(m[op].coinbase && Sub64(height, m[op].height) < COINBASE_MATURITY)
     && !(m[op].lockedUntil > 0 && height < m[op].lockedUntil))
  }

  predicate TxMature(m: UtxoMap, t: Tx, height: Uint64) {
    forall i :: 0 <= i < |t.inputs| ==> InputMature(m, t.inputs[i].prevOut, height)
  }

  ghost predicate TokenRulesOk(rules: Rules, m: UtxoMap, t: Tx) {
    && TokensOk(t, m)
    && (HasMintOutput(t) ==> rules.allowMinting && TxFee(m, t) >= TOKEN_CREATION_FEE)
  }

  predicate StakeExact(rules: Rules, t: Tx) {
    rules.validatorStake > 0 ==>
      forall i :: 0 <= i < |t.outputs| && t.outputs[i].script.kind == Stake ==> t.outputs[i].value == rules.validatorStake
  }

  function IsRegistration(o: Output): nat {
    if o.script.kind == Register then 1 else 0
  }

  predicate RegistrationOk(rules: Rules, existing: nat, pending: nat, outs: seq<Output>, j: nat)
    requires j < |outs|
  {
    outs[j].script.kind == Register ==> rules.registration(outs[j], existing, pending + Sum(outs[..j], IsRegistration))
  }

  /** Each registration output is judged knowing how many came before it in the block. */
  predicate RegistrationsOk(rules: Rules, existing: nat, pending: nat, outs: seq<Output>) {
    forall j :: 0 <= j < |outs| ==> RegistrationOk(rules, existing, pending, outs, j)
  }

  predicate CoinbaseOk(t: Tx) {
    IsCoinbase(t) && forall i :: 0 <= i < |t.outputs| ==> CoinbaseOutputOk(t.outputs[i])
  }

  ghost predicate AllSpendOk(utxos: UtxoMap, txs: seq<Tx>) {
    forall i :: 1 <= i < |txs| ==> SpendOk(txs[i], utxos)
  }

  predicate SingleCoinbase(txs: seq<Tx>) {
    forall i :: 1 <= i < |txs| ==> !HasZeroInput(txs[i])
  }

  predicate AllMature(utxos: UtxoMap, txs: seq<Tx>, height: Uint64) {
    forall i :: 0 <= i < |txs| ==> TxMature(utxos, txs[i], height)
  }

  ghost predicate AllTokensOk(rules: Rules, utxos: UtxoMap, txs: seq<Tx>) {
    forall i :: 1 <= i < |txs| ==> TokenRulesOk(rules, utxos, txs[i])
  }

  predicate AllStakesExact(rules: Rules, txs: seq<Tx>) {
    forall i :: 1 <= i < |txs| ==> StakeExact(rules, txs[i])
  }

  ghost predicate RegistrationsOkAt(rules: Rules, existing: nat, txs: seq<Tx>, i: nat)
    requires i < |txs|
  {
    RegistrationsOk(rules, existing, BlockOut(txs[..i], IsRegistration), txs[i].outputs)
  }

  ghost predicate AllRegistrationsOk(rules: Rules, existing: nat, txs: seq<Tx>) {
    && (forall i :: 0 <= i < |txs| ==> RegistrationsOkAt(rules, existing, txs, i))
    && BlockOut(txs, IsRegistration) <= MAX_U64
  }

  ghost predicate MintOk(rules: Rules, utxos: UtxoMap, supply: nat, b: Block)
    requires |b.txs| > 0
  {
    && Fees(utxos, b.txs) <= MAX_U64
    && OutSum(b.txs[0], ValueOf) <= MAX_U64
    && Minted(utxos, b.txs) <= AllowedMint(rules, supply, b.header.height)
  }

  /** What validateBlockState demands of `b` on top of `utxos`, `supply` and `registered`. */
  ghost predicate StateValid(rules: Rules, utxos: UtxoMap, supply: nat, registered: nat, b: Block) {
    && |b.txs| > 0
    && CoinbaseOk(b.txs[0])
    && AllSpendOk(utxos, b.txs)
    && MintOk(rules, utxos, supply, b)
    && SingleCoinbase(b.txs)
    && AllMature(utxos, b.txs, b.header.height)
    && AllTokensOk(rules, utxos, b.txs)
    && AllStakesExact(rules, b.txs)
    && AllRegistrationsOk(rules, registered, b.txs)
  }

  // ---------------------------------------------------------------- the methods

  lemma FeeIs(m: UtxoMap, txs: seq<Tx>, i: nat, fee: int)
    requires 1 <= i < |txs| && SpendOk(txs[i], m) && AllSpendOk(m, txs[..i])
    requires fee == InSum(m, txs[i].inputs, ValueOf) - OutSum(txs[i], ValueOf) >= 0
    ensures Fees(m, txs[..i + 1]) == Fees(m, txs[..i]) + fee <= Fees(m, txs) && fee == TxFee(m, txs[i])
    ensures AllSpendOk(m, txs[..i + 1])
  {
    hide SpendOk, InSum, OutSum, Fees;
    FeesStep(m, txs, i);
    FeesMonotone(m, txs, i + 1);
    assert forall j :: 1 <= j < i ==> txs[..i + 1][j] == txs[..i][j];
  }

  lemma NoFeesYet(m: UtxoMap, txs: seq<Tx>)
    requires |txs| > 0
    ensures Fees(m, txs[..1]) == 0 && AllSpendOk(m, txs[..1])
  {
  }

  lemma OneFails(m: UtxoMap, txs: seq<Tx>, i: nat)
    requires 1 <= i < |txs| && !SpendOk(txs[i], m)
    ensures !AllSpendOk(m, txs)
  {
    hide SpendOk;
  }

  /** The loop of validateBlockState over fees: the total, or none when a transaction fails. */
  method TotalFees(txs: seq<Tx>, m: UtxoMap) returns (total: Option<Uint64>, fees: seq<Uint64>)
    requires |txs| > 0
    ensures total.Some? <==> AllSpendOk(m, txs) && Fees(m, txs) <= MAX_U64
    ensures total.Some? ==> total.value == Fees(m, txs) && |fees| == |txs| && forall i :: 1 <= i < |txs| ==> fees[i] == TxFee(m, txs[i])
  {
    hide Fees, SpendOk, InSum, OutSum, AllSpendOk, TxFee;
    var sum: Uint64 := 0;
    fees := [0];
    NoFeesYet(m, txs);
    for i := 1 to |txs|
      invariant AllSpendOk(m, txs[..i])
      invariant sum == Fees(m, txs[..i])
      invariant |fees| == i && forall j :: 1 <= j < i ==> fees[j] == TxFee(m, txs[j])
    {
      var fee := ValidateWithUtxos(txs[i], m);
      if fee.None? {
        OneFails(m, txs, i);
        return None, fees;
      }
      FeeIs(m, txs, i, fee.value);
      if sum > MAX_U64 - fee.value {
        return None, fees;
      }
      fees := fees + [fee.value];
      sum := sum + fee.value;
    }
    assert txs[..|txs|] == txs;
    return Some(sum), fees;
  }

  /** checkCoinbaseMaturity. */
  method CheckMaturity(txs: seq<Tx>, m: UtxoMap, height: Uint64) returns (ok: bool)
    ensures ok <==> AllMature(m, txs, height)
  {
    for i := 0 to |txs|
      invariant forall j :: 0 <= j < i ==> TxMature(m, txs[j], height)
    {
      for k := 0 to |txs[i].inputs|
        invariant forall j :: 0 <= j < k ==> InputMature(m, txs[i].inputs[j].prevOut, height)
      {
        if !InputMature(m, txs[i].inputs[k].prevOut, height) {
          assert !TxMature(m, txs[i], height);
          return false;
        }
      }
    }
    return true;
  }

  lemma {:induction false} BlockOutStep(txs: seq<Tx>, v: Weight, i: nat)
    requires i < |txs|
    ensures BlockOut(txs[..i + 1], v) == BlockOut(txs[..i], v) + OutSum(txs[i], v)
  {
    assert txs[..i + 1][..i] == txs[..i];
  }

  lemma {:induction false} BlockOutMonotone(txs: seq<Tx>, v: Weight, i: nat)
    requires i <= |txs|
    ensures BlockOut(txs[..i], v) <= BlockOut(txs, v)
    decreases |txs| - i
  {
    if i == |txs| {
      assert txs[..i] == txs;
    } else {
      BlockOutStep(txs, v, i);
      BlockOutMonotone(txs, v, i + 1);
    }
  }

  /** The inner loop of validateRegistrations: one transaction's outputs. */
  method CountRegistrations(rules: Rules, outs: seq<Output>, registered: nat, before: Uint64) returns (r: Option<Uint64>)
    ensures r.Some? <==> RegistrationsOk(rules, registered, before, outs) && before + Sum(outs, IsRegistration) <= MAX_U64
    ensures r.Some? ==> r.value == before + Sum(outs, IsRegistration)
  {
    var count: Uint64 := before;
    for j := 0 to |outs|
      invariant count == before + Sum(outs[..j], IsRegistration)
      invariant forall k :: 0 <= k < j ==> RegistrationOk(rules, registered, before, outs, k)
    {
      SumPrefix(outs, IsRegistration, j);
      SumMonotone(outs, IsRegistration, j + 1);
      if outs[j].script.kind != Register {
        continue;
      }
      if !rules.registration(outs[j], registered, count) {
        assert !RegistrationOk(rules, registered, before, outs, j);
        return None;
      }
      if count == MAX_U64 {
        return None;
      }
      count := count + 1;
    }
    assert outs[..|outs|] == outs;
    return Some(count);
  }

  /** validateRegistrations: the number of registrations in the block. */
  method ValidateRegistrations(rules: Rules, txs: seq<Tx>, registered: nat) returns (r: Option<Uint64>)
    ensures r.Some? <==> AllRegistrationsOk(rules, registered, txs)
    ensures r.Some? ==> r.value == BlockOut(txs, IsRegistration)
  {
    var count: Uint64 := 0;
    for i := 0 to |txs|
      invariant count == BlockOut(txs[..i], IsRegistration)
      invariant forall k :: 0 <= k < i ==> RegistrationsOkAt(rules, registered, txs, k)
    {
      hide RegistrationsOk;
      BlockOutStep(txs, IsRegistration, i);
      BlockOutMonotone(txs, IsRegistration, i + 1);
      var next := CountRegistrations(rules, txs[i].outputs, registered, count);
      if next.None? {
        assert !RegistrationsOkAt(rules, registered, txs, i) || BlockOut(txs, IsRegistration) > MAX_U64;
        return None;
      }
      count := next.value;
    }
    assert txs[..|txs|] == txs;
    return Some(count);
  }

  /** countRegisterOutputs. */
  method CountRegisterOutputs(txs: seq<Tx>) returns (count: nat)
    ensures count == BlockOut(txs, IsRegistration)
  {
    hide Sum, BlockOut;
    count := 0;
    NothingRegistered(txs);
    for i := 0 to |txs|
      invariant count == BlockOut(txs[..i], IsRegistration)
    {
      var outs := txs[i].outputs;
      ghost var before := count;
      NoneCounted(outs);
      for j := 0 to |outs|
        invariant count == before + Sum(outs[..j], IsRegistration)
      {
        SumPrefix(outs, IsRegistration, j);
        if outs[j].script.kind == Register {
          count := count + 1;
        }
      }
      assert outs[..|outs|] == outs;
      BlockOutStep(txs, IsRegistration, i);
    }
    assert txs[..|txs|] == txs;
  }

  lemma NothingRegistered(txs: seq<Tx>)
    ensures BlockOut(txs[..0], IsRegistration) == 0
  {
  }

  lemma NoneCounted(outs: seq<Output>)
    ensures Sum(outs[..0], IsRegistration) == 0
  {
  }

  /** The token loop of validateBlockState. */
  method CheckTokens(rules: Rules, txs: seq<Tx>, m: UtxoMap, fees: seq<Uint64>) returns (ok: bool)
    requires |fees| == |txs| && forall i :: 1 <= i < |txs| ==> fees[i] == TxFee(m, txs[i])
    ensures ok <==> AllTokensOk(rules, m, txs)
  {
    var i := 1;
    while i < |txs|
      invariant 1 <= i
      invariant forall j :: 1 <= j < i && j < |txs| ==> TokenRulesOk(rules, m, txs[j])
    {
      var hasMint := HasMintOutput(txs[i]);
      if hasMint && !rules.allowMinting {
        assert !TokenRulesOk(rules, m, txs[i]);
        return false;
      }
      var tokensOk := ValidateTokens(txs[i], m);
      if !tokensOk {
        assert !TokenRulesOk(rules, m, txs[i]);
        return false;
      }
      if hasMint && fees[i] < TOKEN_CREATION_FEE {
        assert !TokenRulesOk(rules, m, txs[i]);
        return false;
      }
      i := i + 1;
    }
    return true;
  }

  method CheckCoinbase(t: Tx) returns (ok: bool)
    ensures ok <==> CoinbaseOk(t)
  {
    if !IsCoinbase(t) {
      return false;
    }
    for i := 0 to |t.outputs|
      invariant forall j :: 0 <= j < i ==> CoinbaseOutputOk(t.outputs[j])
    {
      if !CoinbaseOutputOk(t.outputs[i]) {
        return false;
      }
    }
    return true;
  }

  method CheckStakes(rules: Rules, txs: seq<Tx>) returns (ok: bool)
    ensures ok <==> AllStakesExact(rules, txs)
  {
    for i := Min(1, |txs|) to |txs|
      invariant forall j :: 1 <= j < i ==> StakeExact(rules, txs[j])
    {
      if !StakeExact(rules, txs[i]) {
        return false;
      }
    }
    return true;
  }

  method CheckMint(rules: Rules, utxos: UtxoMap, supply: nat, b: Block, fees: Uint64) returns (ok: bool)
    requires |b.txs| > 0 && fees == Fees(utxos, b.txs)
    ensures ok <==> MintOk(rules, utxos, supply, b)
  {
    var coinbaseTotal := TotalOutputValue(b.txs[0]);
    if coinbaseTotal.None? {
      return false;
    }
    var minted := if coinbaseTotal.value > fees then coinbaseTotal.value - fees else 0;
    return minted <= AllowedMint(rules, supply, b.header.height);
  }

  /** validateBlockState: the number of registrations in the block, or a rejection. */
  method ValidateBlockState(rules: Rules, utxos: UtxoMap, supply: nat, registered: nat, b: Block) returns (r: Option<Uint64>)
    requires |b.txs| > 0
    ensures r.Some? <==> StateValid(rules, utxos, supply, registered, b)
    ensures r.Some? ==> r.value == BlockOut(b.txs, IsRegistration)
  {
    hide CoinbaseOk, AllSpendOk, SingleCoinbase, AllMature, AllTokensOk, AllStakesExact, AllRegistrationsOk;
    var ok := CheckCoinbase(b.txs[0]);
    if !ok {
      return None;
    }
    var total, fees := TotalFees(b.txs, utxos);
    if total.None? {
      return None;
    }
    ok := CheckMint(rules, utxos, supply, b, total.value);
    if !ok || !SingleCoinbase(b.txs) {
      return None;
    }
    ok := CheckMaturity(b.txs, utxos, b.header.height);
    if !ok {
      return None;
    }
    ok := CheckTokens(rules, b.txs, utxos, fees);
    if !ok {
      return None;
    }
    ok := CheckStakes(rules, b.txs);
    if !ok {
      return None;
    }
    r := ValidateRegistrations(rules, b.txs, registered);
  }

  ghost predicate RewardSumsFit(m: UtxoMap, txs: seq<Tx>)
    requires |txs| > 0
  {
    && OutSum(txs[0], ValueOf) <= MAX_U64
    && (forall i :: 1 <= i < |txs| ==> InSum(m, txs[i].inputs, ValueOf) <= MAX_U64)
    && (forall i :: 1 <= i < |txs| ==> OutSum(txs[i], ValueOf) <= MAX_U64)
    && Fees(m, txs) <= MAX_U64
  }

  // ---------------------------------------------------------------- sums that drop terms

  /** A sum in uint64 from which the terms that would overflow are left out. */
  function SumKept<T>(s: seq<T>, w: T -> nat): (r: Uint64) {
    if |s| == 0 then 0 else
      var sum := SumKept(s[..|s| - 1], w);
      if w(s[|s| - 1]) > MAX_U64 - sum then sum else sum + w(s[|s| - 1])
  }

  lemma {:induction false} SumKeptNext<T>(s: seq<T>, w: T -> nat, i: nat)
    requires i < |s|
    ensures var sum := SumKept(s[..i], w); SumKept(s[..i + 1], w) == if w(s[i]) > MAX_U64 - sum then sum else sum + w(s[i])
  {
    assert s[..i + 1][..i] == s[..i];
  }

  /** It never exceeds the true sum, and is that sum exactly when that fits in uint64. */
  lemma {:induction false} SumKeptExactlyWhen<T>(s: seq<T>, w: T -> nat)
    ensures SumKept(s, w) <= Sum(s, w)
    ensures SumKept(s, w) == Sum(s, w) <==> Sum(s, w) <= MAX_U64
  {
    if |s| > 0 {
      SumKeptExactlyWhen(s[..|s| - 1], w);
    }
  }

  function InputWorth(m: UtxoMap): Input -> nat {
    (i: Input) => if i.prevOut.IsZero() || i.prevOut !in m then 0 else m[i.prevOut].value
  }

  lemma {:induction false} InSumIs(m: UtxoMap, ins: seq<Input>)
    ensures Sum(ins, InputWorth(m)) == InSum(m, ins, ValueOf)
  {
    if |ins| > 0 {
      InSumIs(m, ins[..|ins| - 1]);
    }
  }

  /** What computeTxFee takes for the fee of any transaction, valid or not. */
  function FeeKept(m: UtxoMap): Tx -> nat {
    (t: Tx) => Max(0, SumKept(t.inputs, InputWorth(m)) - SumKept(t.outputs, ValueOf))
  }

  /** It is the fee if no sum overflows. */
  lemma {:induction false} FeeKeptIs(m: UtxoMap, t: Tx)
    requires InSum(m, t.inputs, ValueOf) <= MAX_U64 && OutSum(t, ValueOf) <= MAX_U64
    ensures FeeKept(m)(t) == TxFee(m, t)
  {
    InSumIs(m, t.inputs);
    SumKeptExactlyWhen(t.inputs, InputWorth(m));
    SumKeptExactlyWhen(t.outputs, ValueOf);
  }

  /** What computeBlockReward takes for the reward of any block. */
  function RewardKept(m: UtxoMap, txs: seq<Tx>): nat {
    if |txs| == 0 || OutSum(txs[0], ValueOf) > MAX_U64 then 0
    else Max(0, OutSum(txs[0], ValueOf) - SumKept(txs[1..], FeeKept(m)))
  }

  /** It is what the coinbase mints if no sum overflows, as on every validated block. */
  lemma {:induction false} RewardKeptIs(m: UtxoMap, txs: seq<Tx>)
    requires |txs| > 0 && RewardSumsFit(m, txs)
    ensures RewardKept(m, txs) == Minted(m, txs)
  {
    hide SumKept, FeeKept, TxFee, InSum, OutSum;
    FeesKept(m, txs);
    SumKeptExactlyWhen(txs[1..], FeeKept(m));
  }

  lemma {:induction false} FeesKept(m: UtxoMap, txs: seq<Tx>)
    requires |txs| > 0
    requires forall i :: 1 <= i < |txs| ==> InSum(m, txs[i].inputs, ValueOf) <= MAX_U64 && OutSum(txs[i], ValueOf) <= MAX_U64
    ensures Sum(txs[1..], FeeKept(m)) == Fees(m, txs)
    decreases |txs|
  {
    hide FeeKept, TxFee, InSum, OutSum;
    var n := |txs| - 1;
    if n > 0 {
      FeesKept(m, txs[..n]);
      FeeKeptIs(m, txs[n]);
      assert txs[1..][..n - 1] == txs[..n][1..] && txs[1..][n - 1] == txs[n];
    }
  }

  /** The loop of computeBlockReward over the transactions after the coinbase. */
  method CollectedFees(m: UtxoMap, txs: seq<Tx>) returns (totalFees: Uint64)
    ensures totalFees == SumKept(txs, FeeKept(m))
  {
    hide FeeKept;
    totalFees := 0;
    for i := 0 to |txs|
      invariant totalFees == SumKept(txs[..i], FeeKept(m))
    {
      SumKeptNext(txs, FeeKept(m), i);
      var fee := ComputeTxFee(m, txs[i]);
      if totalFees > MAX_U64 - fee {
        continue;
      }
      totalFees := totalFees + fee;
    }
    assert txs[..|txs|] == txs;
  }

  /** computeBlockReward. */
  method ComputeBlockReward(m: UtxoMap, b: Block) returns (reward: Uint64)
    ensures reward == RewardKept(m, b.txs)
    ensures |b.txs| > 0 && RewardSumsFit(m, b.txs) ==> reward == Minted(m, b.txs)
  {
    if |b.txs| > 0 && RewardSumsFit(m, b.txs) {
      RewardKeptIs(m, b.txs);
    }
    if |b.txs| == 0 || |b.txs[0].outputs| == 0 {
      return 0;
    }
    hide RewardSumsFit, Minted, FeeKept, OutSum, SumKept;
    var coinbase := TotalOutputValue(b.txs[0]);
    if coinbase.None? {
      return 0;
    }
    var totalFees := CollectedFees(m, b.txs[1..]);
    return if coinbase.value > totalFees then coinbase.value - totalFees else 0;
  }

  /** computeTxFee. */
  method ComputeTxFee(m: UtxoMap, t: Tx) returns (fee: Uint64)
    ensures fee == FeeKept(m)(t)
    ensures InSum(m, t.inputs, ValueOf) <= MAX_U64 && OutSum(t, ValueOf) <= MAX_U64 ==> fee == TxFee(m, t)
  {
    if InSum(m, t.inputs, ValueOf) <= MAX_U64 && OutSum(t, ValueOf) <= MAX_U64 {
      FeeKeptIs(m, t);
    }
    hide InSum, OutSum, TxFee;
    var inputSum: Uint64 := 0;
    for i := 0 to |t.inputs|
      invariant inputSum == SumKept(t.inputs[..i], InputWorth(m))
    {
      SumKeptNext(t.inputs, InputWorth(m), i);
      var op := t.inputs[i].prevOut;
      if op.IsZero() || op !in m || inputSum > MAX_U64 - m[op].value {
        continue;
      }
      inputSum := inputSum + m[op].value;
    }
    assert t.inputs[..|t.inputs|] == t.inputs;
    var outputSum: Uint64 := 0;
    for i := 0 to |t.outputs|
      invariant outputSum == SumKept(t.outputs[..i], ValueOf)
    {
      SumKeptNext(t.outputs, ValueOf, i);
      if outputSum > MAX_U64 - t.outputs[i].value {
        continue;
      }
      outputSum := outputSum + t.outputs[i].value;
    }
    assert t.outputs[..|t.outputs|] == t.outputs;
    return if inputSum > outputSum then inputSum - outputSum else 0;
  }

  lemma {:induction false} ValidRewardFits(rules: Rules, utxos: UtxoMap, supply: nat, registered: nat, b: Block)
    requires StateValid(rules, utxos, supply, registered, b)
    ensures RewardSumsFit(utxos, b.txs)
  {
    forall i | 1 <= i < |b.txs|
      ensures InSum(utxos, b.txs[i].inputs, ValueOf) <= MAX_U64 && OutSum(b.txs[i], ValueOf) <= MAX_U64
    {
      assert SpendOk(b.txs[i], utxos);
    }
  }

  /** On a validated block the supply cap changes nothing: validation already kept the mint under it. */
  lemma {:induction false} CapIsNoOp(rules: Rules, utxos: UtxoMap, supply: nat, registered: nat, b: Block)
    requires StateValid(rules, utxos, supply, registered, b)
    ensures Capped(rules.maxSupply, supply, Minted(utxos, b.txs)) == Minted(utxos, b.txs)
    ensures rules.maxSupply > 0 && supply <= rules.maxSupply ==> supply + Minted(utxos, b.txs) <= rules.maxSupply
    ensures Minted(utxos, b.txs) <= BlockSubsidy(rules.blockReward, rules.halvingInterval, b.header.height)
  {
  }
}
