/** The rules of the chain without its ledger: whether a block may follow a valid chain, said of the blocks alone
    and in the numbers of the documentation. Validation against the unspent outputs decides exactly this. */
module Consensus {
  import opened Primitives
  import opened Types
  import opened Arithmetic
  import opened Ledger
  import opened Weights
  import opened TxRules
  import opened Tokens
  import opened BlockRules
  import opened Merkle
  import opened Subsidy
  import opened StateRules
  import opened Replay
  import opened History

  // ---------------------------------------------------------------- what there is to spend

  /** The output that some transaction of the chain made under `op` and none has used. */
  ghost function Available(chain: seq<Block>, op: Outpoint): (r: Option<Output>)
    ensures r.Some? <==> MadeOn(chain, op) && !UsedOn(chain, op)
    ensures r.Some? ==> exists k: nat, n: nat :: Made(chain, k, n, op) && OutputAt(chain, k, n, op) == r.value
  {
    if MadeOn(chain, op) && !UsedOn(chain, op) then
      var k: nat, n: nat :| Made(chain, k, n, op);
      Some(OutputAt(chain, k, n, op))
    else None
  }

  lemma {:induction false} AvailableIs(rules: Rules, g: Block, chain: seq<Block>, op: Outpoint)
    requires TxHashSound() && ChainOk(rules, g, chain)
    ensures var m := Fold(chain).utxos; Available(chain, op) == if op in m then Some(AsOutput(m[op])) else None
  {
    hide ChainOk, TxHashSound, Fold, MadeOn, UsedOn, Unstakes;
    UnspentExactlyWhen(rules, g, chain, op);
    if op in Fold(chain).utxos {
      var o := Available(chain, op);
      assert o.Some?;
      var k: nat, n: nat :| Made(chain, k, n, op) && OutputAt(chain, k, n, op) == o.value;
      RecordExactly(rules, g, chain, k, n, op);
    }
  }

  /** What an input brings of a quantity. */
  ghost function BringsOf(chain: seq<Block>, v: Weight, i: Input): nat {
    if i.prevOut == Outpoint(0, 0) || Available(chain, i.prevOut).None? then 0 else v(Available(chain, i.prevOut).value)
  }

  ghost function Brings(chain: seq<Block>, v: Weight): Input -> nat {
    (i: Input) => BringsOf(chain, v, i)
  }

  ghost function Brought(chain: seq<Block>, t: Tx, v: Weight): nat {
    Sum(t.inputs, Brings(chain, v))
  }

  lemma {:induction false} BroughtIs(rules: Rules, g: Block, chain: seq<Block>, ins: seq<Input>, v: Weight, w: Weight)
    requires TxHashSound() && ChainOk(rules, g, chain) && forall o: Output :: v(o) == w(o)
    ensures Sum(ins, Brings(chain, v)) == InSum(Fold(chain).utxos, ins, w)
  {
    hide ChainOk, TxHashSound, Fold, Available;
    if |ins| > 0 {
      var n := |ins| - 1;
      BroughtIs(rules, g, chain, ins[..n], v, w);
      var op := ins[n].prevOut;
      AvailableIs(rules, g, chain, op);
      assert op.IsZero() <==> op == Outpoint(0, 0);
    }
  }

  lemma {:induction false} SameSum<T>(s: seq<T>, v: T -> nat, w: T -> nat)
    requires forall i :: 0 <= i < |s| ==> v(s[i]) == w(s[i])
    ensures Sum(s, v) == Sum(s, w)
  {
    if |s| > 0 {
      SameSum(s[..|s| - 1], v, w);
    }
  }

  function Worth(): Weight {
    (o: Output) => o.value
  }

  /** The amount of a token in an output. */
  function AmountIn(o: Output, id: TokenId): nat {
    if o.token.Some? && o.token.value.id == id then o.token.value.amount else 0
  }

  function AmountOf(id: TokenId): Weight {
    (o: Output) => AmountIn(o, id)
  }

  function KeptOf(id: TokenId): Weight {
    (o: Output) => if o.script.kind == Burn then 0 else AmountIn(o, id)
  }

  function BurnedOf(id: TokenId): Weight {
    (o: Output) => if o.script.kind == Burn then AmountIn(o, id) else 0
  }

  // ---------------------------------------------------------------- the shape of a block

  predicate OutputShape(o: Output) {
    && (o.value > 0 || o.token.Some?) && |o.script.data| <= 65_536
    && (|| o.script.kind in {P2PKH, Burn, Anchor, Register}
        || (o.script.kind == Stake && |o.script.data| == 33)
        || (o.script.kind == Mint && o.token.Some? && o.value == 0 && |o.script.data| >= 20))
  }

  predicate InputShape(i: Input) {
    i.prevOut == Outpoint(0, 0) || (|i.pubKey| > 0 && |i.signature| > 0)
  }

  ghost predicate TxShape(t: Tx) {
    && 1 <= |t.inputs| <= 2500 && 1 <= |t.outputs| <= 2500
    && (forall i, j :: 0 <= i < j < |t.inputs| ==> t.inputs[i].prevOut != t.inputs[j].prevOut)
    && (forall i :: 0 <= i < |t.inputs| ==> InputShape(t.inputs[i]))
    && (forall i :: 0 <= i < |t.outputs| ==> OutputShape(t.outputs[i]))
    && Sum(t.outputs, Worth()) <= 0xFFFF_FFFF_FFFF_FFFF
  }

  lemma {:induction false} TxShapeIs(t: Tx)
    ensures TxShape(t) <==> TxOk(t)
  {
    SameSum(t.outputs, Worth(), ValueOf);
    forall i | 0 <= i < |t.outputs|
      ensures OutputShape(t.outputs[i]) <==> OutputOk(t.outputs[i])
    {
      OutputShapeIs(t.outputs[i]);
    }
    forall i | 0 <= i < |t.inputs|
      ensures InputShape(t.inputs[i]) <==> InputFilled(t.inputs[i])
    {
    }
    hide OutputShape, OutputOk, InputShape, InputFilled;
  }

  lemma OutputShapeIs(o: Output)
    ensures OutputShape(o) <==> OutputOk(o)
  {
  }

  /** Two inputs of a block. */
  ghost predicate Twice(b: Block, i: nat, x: nat, j: nat, y: nat) {
    && i < j < |b.txs| && x < |b.txs[i].inputs| && y < |b.txs[j].inputs|
    && b.txs[i].inputs[x].prevOut == b.txs[j].inputs[y].prevOut != Outpoint(0, 0)
  }

  ghost predicate Shape(b: Block) {
    && b.header.version == 1 && b.header.timestamp > 0
    && 1 <= |b.txs| <= 500 && 100 + Sum(b.txs, SigningSize) <= 2_000_000
    && |b.txs[0].inputs| == 1 && b.txs[0].inputs[0].prevOut == Outpoint(0, 0)
    && (forall i, j :: 1 <= i < |b.txs| && 0 <= j < |b.txs[i].inputs| ==> b.txs[i].inputs[j].prevOut != Outpoint(0, 0))
    && b.header.merkleRoot == Root(TxHashes(b.txs))
    && (forall i, j :: 1 <= i < j < |b.txs| ==> TxHash(b.txs[i]) < TxHash(b.txs[j]))
    && (forall i :: 0 <= i < |b.txs| ==> TxShape(b.txs[i]))
    && !exists i: nat, x: nat, j: nat, y: nat :: Twice(b, i, x, j, y)
  }

  lemma {:induction false} ShapeIs(b: Block)
    ensures Shape(b) <==> BlockOk(b)
  {
    forall i | 0 <= i < |b.txs|
      ensures TxShape(b.txs[i]) <==> TxOk(b.txs[i])
      ensures HasZeroInput(b.txs[i]) <==> exists j :: 0 <= j < |b.txs[i].inputs| && b.txs[i].inputs[j].prevOut == Outpoint(0, 0)
    {
      TxShapeIs(b.txs[i]);
      ZeroInput(b.txs[i]);
    }
    SharedIs(b);
    AscendingIs(b.txs);
    hide TxShape, TxOk, HasZeroInput, NoSharedSpend, Canonical, Twice, Root;
  }

  lemma ZeroInput(t: Tx)
    ensures HasZeroInput(t) <==> exists j :: 0 <= j < |t.inputs| && t.inputs[j].prevOut == Outpoint(0, 0)
  {
    assert forall op: Outpoint :: op.IsZero() <==> op == Outpoint(0, 0);
  }

  lemma {:induction false} SharedIs(b: Block)
    ensures NoSharedSpend(b.txs) <==> !exists i: nat, x: nat, j: nat, y: nat :: Twice(b, i, x, j, y)
  {
    if exists i: nat, x: nat, j: nat, y: nat :: Twice(b, i, x, j, y) {
      var i: nat, x: nat, j: nat, y: nat :| Twice(b, i, x, j, y);
      UsedBy(b.txs[i], b.txs[i].inputs[x].prevOut);
      UsedBy(b.txs[j], b.txs[i].inputs[x].prevOut);
    }
    if !NoSharedSpend(b.txs) {
      hide Spends;
      var i, j, op :| 0 <= i < j < |b.txs| && op in Spends(b.txs[i]) && op in Spends(b.txs[j]);
      UsedBy(b.txs[i], op);
      UsedBy(b.txs[j], op);
      var x :| 0 <= x < |b.txs[i].inputs| && b.txs[i].inputs[x].prevOut == op;
      var y :| 0 <= y < |b.txs[j].inputs| && b.txs[j].inputs[y].prevOut == op;
      assert Twice(b, i, x, j, y);
    }
  }

  lemma {:induction false} AscendingIs(txs: seq<Tx>)
    ensures Canonical(txs) <==> forall i, j :: 1 <= i < j < |txs| ==> TxHash(txs[i]) < TxHash(txs[j])
  {
    if Canonical(txs) {
      forall i, j | 1 <= i < j < |txs|
        ensures TxHash(txs[i]) < TxHash(txs[j])
      {
        CanonicalAscends(txs, i, j);
      }
    } else {
      var i :| 2 <= i < |txs| && !(TxHash(txs[i - 1]) < TxHash(txs[i]));
      assert 1 <= i - 1 < i < |txs|;
    }
  }

  // ---------------------------------------------------------------- spending

  /** An input of a transaction after the coinbase: it spends an available output, with the owner's signature. */
  ghost predicate InputLawful(chain: seq<Block>, t: Tx, i: Input) {
    && Available(chain, i.prevOut).Some? && |i.pubKey| > 0
    && OwnedBy(Available(chain, i.prevOut).value.script, i.pubKey) && VerifySignature(TxHash(t), i.signature, i.pubKey)
  }

  ghost predicate SpendLawful(chain: seq<Block>, t: Tx) {
    && (forall i :: 0 <= i < |t.inputs| ==> InputLawful(chain, t, t.inputs[i]))
    && Sum(t.outputs, Worth()) <= Brought(chain, t, Worth()) <= 0xFFFF_FFFF_FFFF_FFFF
  }

  lemma {:induction false} SpendLawfulIs(rules: Rules, g: Block, chain: seq<Block>, t: Tx)
    requires TxHashSound() && ChainOk(rules, g, chain) && TxShape(t)
    requires forall j :: 0 <= j < |t.inputs| ==> t.inputs[j].prevOut != Outpoint(0, 0)
    ensures SpendLawful(chain, t) <==> SpendOk(t, Fold(chain).utxos)
  {
    hide ChainOk, TxHashSound, Fold, Available, TxOk, TxShape, SpendOk, Brings, InSum;
    var m := Fold(chain).utxos;
    TxShapeIs(t);
    SpendOkExactlyWhen(t, m);
    BroughtIs(rules, g, chain, t.inputs, Worth(), ValueOf);
    SameSum(t.outputs, Worth(), ValueOf);
    forall j | 0 <= j < |t.inputs|
      ensures InputLawful(chain, t, t.inputs[j]) <==> OwnerSigned(t, t.inputs[j], m)
    {
      AvailableIs(rules, g, chain, t.inputs[j].prevOut);
    }
  }

  /** What block `height` may spend: nothing of a coinbase or of an unstaking transaction for 20 blocks. */
  ghost predicate AllRipe(chain: seq<Block>, b: Block, height: nat) {
    forall i: nat, j: nat, k: nat, n: nat :: SpendsOld(chain, b, i, j, k, n) ==> Ripe(chain, k, n, height)
  }

  // ---------------------------------------------------------------- tokens

  predicate TokenOutputLawful(o: Output, first: Outpoint) {
    o.token.Some? ==>
      && o.token.value.amount <= 18_446_744_073_709_551
      && (o.script.kind == Mint ==> o.token.value.amount > 0 && o.token.value.id == DeriveTokenId(first))
      && (o.script.kind == Burn ==> o.token.value.amount > 0)
  }

  predicate HoldsToken(o: Output, id: TokenId) {
    o.token.Some? && o.token.value.id == id
  }

  /** An input spends an output of the token. */
  ghost predicate TokenComesIn(chain: seq<Block>, t: Tx, id: TokenId) {
    exists j :: 0 <= j < |t.inputs| && t.inputs[j].prevOut != Outpoint(0, 0) && Available(chain, t.inputs[j].prevOut).Some? &&
                HoldsToken(Available(chain, t.inputs[j].prevOut).value, id)
  }

  ghost predicate TokenIsKept(t: Tx, id: TokenId) {
    exists j :: 0 <= j < |t.outputs| && HoldsToken(t.outputs[j], id) && t.outputs[j].script.kind != Burn
  }

  ghost predicate TokenIsMinted(t: Tx, id: TokenId) {
    exists j :: 0 <= j < |t.outputs| && HoldsToken(t.outputs[j], id) && t.outputs[j].script.kind == Mint
  }

  /** A token is issued by a transaction that brings none of it, or else what comes in is kept or burned. */
  ghost predicate TokenLawful(chain: seq<Block>, t: Tx, id: TokenId) {
    var into, kept, burned := Brought(chain, t, AmountOf(id)), Sum(t.outputs, KeptOf(id)), Sum(t.outputs, BurnedOf(id));
    && into <= 0xFFFF_FFFF_FFFF_FFFF && kept <= 0xFFFF_FFFF_FFFF_FFFF && burned <= 0xFFFF_FFFF_FFFF_FFFF
    && (TokenIsMinted(t, id) ==> !TokenComesIn(chain, t, id))
    && (!TokenIsMinted(t, id) && (TokenComesIn(chain, t, id) || TokenIsKept(t, id)) ==> into == kept + burned)
  }

  /** The token rules; issuing costs 50 coins of 10^12 units. */
  ghost predicate TokensLawful(rules: Rules, chain: seq<Block>, t: Tx) {
    && |t.inputs| > 0 && (forall j :: 0 <= j < |t.outputs| ==> TokenOutputLawful(t.outputs[j], t.inputs[0].prevOut))
    && (forall id :: TokenLawful(chain, t, id))
    && ((exists j :: 0 <= j < |t.outputs| && t.outputs[j].script.kind == Mint) ==>
          rules.allowMinting && Brought(chain, t, Worth()) >= Sum(t.outputs, Worth()) + 50_000_000_000_000)
  }

  lemma {:induction false} TokenLawfulIs(rules: Rules, g: Block, chain: seq<Block>, t: Tx, id: TokenId)
    requires TxHashSound() && ChainOk(rules, g, chain)
    ensures TokenLawful(chain, t, id) <==> TokenSumsFit(t, Fold(chain).utxos, id) && TokenBalanced(t, Fold(chain).utxos, id)
  {
    hide ChainOk, TxHashSound, Fold, Available, InSum, Brings, TokenComesIn, TokenIsKept, TokenIsMinted, HasTokenInput, HasKept, Mints, AmountOf, KeptOf, BurnedOf, Keeps, Burns, Carries;
    TokenWeights(t, id);
    assert forall o: Output :: AmountOf(id)(o) == Carries(id)(o) by {
      CarriesIs(id);
    }
    BroughtIs(rules, g, chain, t.inputs, AmountOf(id), Carries(id));
    TokenPresence(rules, g, chain, t, id);
  }

  lemma CarriesIs(id: TokenId)
    ensures forall o: Output :: AmountOf(id)(o) == Carries(id)(o)
  {
  }

  lemma {:induction false} TokenWeights(t: Tx, id: TokenId)
    ensures Sum(t.outputs, KeptOf(id)) == OutSum(t, Keeps(id)) && Sum(t.outputs, BurnedOf(id)) == OutSum(t, Burns(id))
    ensures TokenIsKept(t, id) <==> HasKept(t.outputs, id)
    ensures TokenIsMinted(t, id) <==> Mints(t.outputs, id)
  {
    SameSum(t.outputs, KeptOf(id), Keeps(id));
    SameSum(t.outputs, BurnedOf(id), Burns(id));
    forall j | 0 <= j < |t.outputs|
      ensures KeptAt(t.outputs[j], id) <==> HoldsToken(t.outputs[j], id) && t.outputs[j].script.kind != Burn
      ensures MintedAt(t.outputs[j], id) <==> HoldsToken(t.outputs[j], id) && t.outputs[j].script.kind == Mint
    {
    }
  }

  lemma {:induction false} TokenPresence(rules: Rules, g: Block, chain: seq<Block>, t: Tx, id: TokenId)
    requires TxHashSound() && ChainOk(rules, g, chain)
    ensures TokenComesIn(chain, t, id) <==> HasTokenInput(Fold(chain).utxos, t.inputs, id)
  {
    hide ChainOk, TxHashSound, Fold, Available;
    var m := Fold(chain).utxos;
    forall j | 0 <= j < |t.inputs|
      ensures TokenInputAt(m, t.inputs[j], id) <==>
              t.inputs[j].prevOut != Outpoint(0, 0) && Available(chain, t.inputs[j].prevOut).Some? && HoldsToken(Available(chain, t.inputs[j].prevOut).value, id)
    {
      AvailableIs(rules, g, chain, t.inputs[j].prevOut);
      assert t.inputs[j].prevOut.IsZero() <==> t.inputs[j].prevOut == Outpoint(0, 0);
    }
    hide TokenInputAt, HoldsToken;
  }

  lemma {:induction false} TokensLawfulIs(rules: Rules, g: Block, chain: seq<Block>, t: Tx)
    requires TxHashSound() && ChainOk(rules, g, chain) && |t.inputs| > 0
    ensures TokensLawful(rules, chain, t) <==> TokenRulesOk(rules, Fold(chain).utxos, t)
  {
    hide ChainOk, TxHashSound, Fold, Available, InSum, Brings, TokenLawful, TokenSumsFit, TokenBalanced;
    var m := Fold(chain).utxos;
    forall id
      ensures TokenLawful(chain, t, id) <==> TokenSumsFit(t, m, id) && TokenBalanced(t, m, id)
    {
      TokenLawfulIs(rules, g, chain, t, id);
    }
    BroughtIs(rules, g, chain, t.inputs, Worth(), ValueOf);
    SameSum(t.outputs, Worth(), ValueOf);
    assert forall j :: 0 <= j < |t.outputs| ==> (TokenOutputLawful(t.outputs[j], t.inputs[0].prevOut) <==> TokenOutputOk(t.outputs[j], MintId(t)));
    hide TokenOutputLawful, TokenOutputOk;
  }

  // ---------------------------------------------------------------- coins, stakes, registrations

  /** What a transaction leaves to the block producer. */
  ghost function Leaves(chain: seq<Block>, t: Tx): nat {
    Max(0, Brought(chain, t, Worth()) - Sum(t.outputs, Worth()))
  }

  ghost function FeesOf(chain: seq<Block>, txs: seq<Tx>): nat {
    if |txs| <= 1 then 0 else FeesOf(chain, txs[..|txs| - 1]) + Leaves(chain, txs[|txs| - 1])
  }

  /** The new coins block `height` may bring: the reward, halved once an interval, and never beyond the cap. */
  ghost function NewCoins(rules: Rules, supply: nat, height: nat): int
    requires height > 0
  {
    var subsidy := if rules.halvingInterval == 0 then rules.blockReward else rules.blockReward / Pow2((height - 1) / rules.halvingInterval);
    if rules.maxSupply == 0 then subsidy else Min(subsidy, Max(0, rules.maxSupply - supply))
  }

  /** The coinbase pays no more than the fees and the new coins, and no tokens. */
  ghost predicate CoinbaseLawful(rules: Rules, chain: seq<Block>, b: Block)
    requires |b.txs| > 0 && |chain| > 0
  {
    var fees, pays := FeesOf(chain, b.txs), Sum(b.txs[0].outputs, Worth());
    && fees <= 0xFFFF_FFFF_FFFF_FFFF
    && pays <= fees + NewCoins(rules, Fold(chain).supply, |chain|)
    && forall j :: 0 <= j < |b.txs[0].outputs| ==> b.txs[0].outputs[j].token.None? && b.txs[0].outputs[j].script.kind != Mint
  }

  lemma {:induction false} FeesOfIs(rules: Rules, g: Block, chain: seq<Block>, txs: seq<Tx>)
    requires TxHashSound() && ChainOk(rules, g, chain)
    ensures FeesOf(chain, txs) == Fees(Fold(chain).utxos, txs)
  {
    hide ChainOk, TxHashSound, Fold, Available, Brings, InSum;
    if |txs| > 1 {
      var n := |txs| - 1;
      FeesOfIs(rules, g, chain, txs[..n]);
      BroughtIs(rules, g, chain, txs[n].inputs, Worth(), ValueOf);
      SameSum(txs[n].outputs, Worth(), ValueOf);
    }
  }

  lemma SixtyFour()
    ensures Pow2(64) == TWO_64
  {
    assert Pow2(4) == 16;
    PowAdd(4, 4);
    hide Pow2;
    assert Pow2(8) == 256;
    PowAdd(8, 8);
    assert Pow2(16) == 0x1_0000;
    PowAdd(16, 16);
    assert Pow2(32) == 0x1_0000_0000;
    PowAdd(32, 32);
  }

  lemma {:induction false} NewCoinsIs(rules: Rules, supply: nat, height: nat)
    requires height > 0
    ensures NewCoins(rules, supply, height) == AllowedMint(rules, supply, height)
  {
    hide Pow2, BlockSubsidy;
    SixtyFour();
    SubsidyIs(rules.blockReward, rules.halvingInterval, height);
  }

  lemma {:induction false} CoinbaseLawfulIs(rules: Rules, g: Block, chain: seq<Block>, b: Block)
    requires TxHashSound() && ChainOk(rules, g, chain) && |chain| > 0 && Shape(b) && b.header.height == |chain|
    ensures CoinbaseLawful(rules, chain, b) <==> MintOk(rules, Fold(chain).utxos, Fold(chain).supply, b) && CoinbaseOk(b.txs[0])
  {
    hide ChainOk, TxHashSound, Fold, Available, FeesOf, Fees, NewCoins, AllowedMint;
    FeesOfIs(rules, g, chain, b.txs);
    NewCoinsIs(rules, Fold(chain).supply, |chain|);
    SameSum(b.txs[0].outputs, Worth(), ValueOf);
    assert TxShape(b.txs[0]);
  }

  /** Where stakes have a price, every stake output of a transaction after the coinbase is worth exactly it. */
  ghost predicate StakesLawful(rules: Rules, b: Block) {
    rules.validatorStake > 0 ==>
      forall i, j :: 1 <= i < |b.txs| && 0 <= j < |b.txs[i].outputs| && b.txs[i].outputs[j].script.kind == Stake ==>
        b.txs[i].outputs[j].value == rules.validatorStake
  }

  lemma StakesLawfulIs(rules: Rules, b: Block)
    ensures StakesLawful(rules, b) <==> AllStakesExact(rules, b.txs)
  {
  }

  /** The registrations among some outputs. */
  function Registers(outs: seq<Output>): nat {
    if |outs| == 0 then 0 else Registers(outs[..|outs| - 1]) + if outs[|outs| - 1].script.kind == Register then 1 else 0
  }

  function RegistersOf(txs: seq<Tx>): nat {
    if |txs| == 0 then 0 else RegistersOf(txs[..|txs| - 1]) + Registers(txs[|txs| - 1].outputs)
  }

  /** Each registration passes the pluggable rule, told how many the chain has and how many the block had before. */
  ghost predicate RegistrationsLawful(rules: Rules, chain: seq<Block>, b: Block) {
    && RegistersOf(b.txs) <= 0xFFFF_FFFF_FFFF_FFFF
    && forall i, j :: 0 <= i < |b.txs| && 0 <= j < |b.txs[i].outputs| && b.txs[i].outputs[j].script.kind == Register ==>
         rules.registration(b.txs[i].outputs[j], Fold(chain).registered, RegistersOf(b.txs[..i]) + Registers(b.txs[i].outputs[..j]))
  }

  lemma {:induction false} RegistersIs(outs: seq<Output>)
    ensures Registers(outs) == Sum(outs, IsRegistration)
  {
    if |outs| > 0 {
      RegistersIs(outs[..|outs| - 1]);
    }
  }

  lemma {:induction false} RegistersOfIs(txs: seq<Tx>)
    ensures RegistersOf(txs) == BlockOut(txs, IsRegistration)
  {
    if |txs| > 0 {
      RegistersOfIs(txs[..|txs| - 1]);
      RegistersIs(txs[|txs| - 1].outputs);
    }
  }

  lemma {:induction false} RegistrationsLawfulIs(rules: Rules, chain: seq<Block>, b: Block)
    ensures RegistrationsLawful(rules, chain, b) <==> AllRegistrationsOk(rules, Fold(chain).registered, b.txs)
  {
    hide Fold, Registers, RegistersOf, BlockOut;
    RegistersOfIs(b.txs);
    forall i | 0 <= i < |b.txs|
      ensures RegistrationsOkAt(rules, Fold(chain).registered, b.txs, i) <==>
              forall j :: 0 <= j < |b.txs[i].outputs| && b.txs[i].outputs[j].script.kind == Register ==>
                rules.registration(b.txs[i].outputs[j], Fold(chain).registered, RegistersOf(b.txs[..i]) + Registers(b.txs[i].outputs[..j]))
    {
      RegistersOfIs(b.txs[..i]);
      var before := BlockOut(b.txs[..i], IsRegistration);
      forall j | 0 <= j < |b.txs[i].outputs|
        ensures RegistrationOk(rules, Fold(chain).registered, before, b.txs[i].outputs, j) <==>
                (b.txs[i].outputs[j].script.kind == Register ==>
                   rules.registration(b.txs[i].outputs[j], Fold(chain).registered, RegistersOf(b.txs[..i]) + Registers(b.txs[i].outputs[..j])))
      {
        RegistersIs(b.txs[i].outputs[..j]);
      }
      hide RegistrationOk;
    }
    hide RegistrationsOkAt;
  }

  // ---------------------------------------------------------------- the rules, together

  /** The number that bytes spell, least significant first. */
  function Spells(tag: Bytes): nat {
    if |tag| == 0 then 0 else tag[0] + 256 * Spells(tag[1..])
  }

  lemma {:induction false} SpellsTag(tag: Bytes)
    ensures LittleEndian(Spells(tag), |tag|) == tag && Spells(tag) < Exp256(|tag|)
  {
    if |tag| > 0 {
      SpellsTag(tag[1..]);
      var v := Spells(tag);
      assert v % 256 == tag[0] && v / 256 == Spells(tag[1..]);
      assert tag == [tag[0]] + tag[1..];
    }
  }

  lemma {:induction false} TagSpells(x: nat, n: nat)
    requires x < Exp256(n)
    ensures |LittleEndian(x, n)| == n && Spells(LittleEndian(x, n)) == x
    decreases n
  {
    if n > 0 {
      TagSpells(x / 256, n - 1);
      assert LittleEndian(x, n)[1..] == LittleEndian(x / 256, n - 1);
    }
  }

  /** The coinbase carries the height, in eight bytes. */
  predicate CarriesHeight(b: Block) {
    |b.txs| > 0 && |b.txs[0].inputs| > 0 && |b.txs[0].inputs[0].signature| == 8 && Spells(b.txs[0].inputs[0].signature) == b.header.height
  }

  lemma {:induction false} CarriesHeightIs(b: Block)
    ensures CarriesHeight(b) <==> Tagged(b)
  {
    assert Exp256(8) == TWO_64 by {
      assert Exp256(4) == 0x1_0000_0000;
    }
    TagSpells(b.header.height, 8);
    if |b.txs| > 0 && |b.txs[0].inputs| > 0 {
      SpellsTag(b.txs[0].inputs[0].signature);
    }
    hide Spells, LittleEndian, Exp256;
  }

  /** What the consensus asks of a block after `chain`. */
  ghost predicate Lawful(rules: Rules, chain: seq<Block>, b: Block) {
    && |chain| > 0 && b.header.height == |chain| && b.header.prevHash == chain[|chain| - 1].Hash()
    && Shape(b)
    && (forall i :: 1 <= i < |b.txs| ==> SpendLawful(chain, b.txs[i]) && TokensLawful(rules, chain, b.txs[i]))
    && AllRipe(chain, b, |chain|)
    && CoinbaseLawful(rules, chain, b) && StakesLawful(rules, b) && RegistrationsLawful(rules, chain, b)
  }

  lemma {:induction false} SpendingIs(rules: Rules, g: Block, chain: seq<Block>, b: Block)
    requires TxHashSound() && ChainOk(rules, g, chain) && Shape(b) && b.header.height == |chain| > 0
    ensures (forall i :: 1 <= i < |b.txs| ==> SpendLawful(chain, b.txs[i])) <==> AllSpendOk(Fold(chain).utxos, b.txs)
    ensures (forall i :: 1 <= i < |b.txs| ==> TokensLawful(rules, chain, b.txs[i])) <==> AllTokensOk(rules, Fold(chain).utxos, b.txs)
    ensures AllSpendOk(Fold(chain).utxos, b.txs) ==> (AllRipe(chain, b, |chain|) <==> AllMature(Fold(chain).utxos, b.txs, |chain|))
  {
    hide ChainOk, TxHashSound, Fold, SpendLawful, TokensLawful, TokenRulesOk, TxShape, SpendOk, InputMature, Ripe, Available, MadeOn;
    var m := Fold(chain).utxos;
    forall i | 1 <= i < |b.txs|
      ensures SpendLawful(chain, b.txs[i]) <==> SpendOk(b.txs[i], m)
      ensures TokensLawful(rules, chain, b.txs[i]) <==> TokenRulesOk(rules, m, b.txs[i])
    {
      HasInputs(b.txs[i]);
      SpendLawfulIs(rules, g, chain, b.txs[i]);
      TokensLawfulIs(rules, g, chain, b.txs[i]);
    }
    if AllSpendOk(m, b.txs) {
      AllPresent(m, b);
      MatureExactlyWhen(rules, g, chain, b);
    }
  }

  lemma HasInputs(t: Tx)
    requires TxShape(t)
    ensures |t.inputs| > 0
  {
  }

  lemma AllPresent(m: UtxoMap, b: Block)
    requires AllSpendOk(m, b.txs) && |b.txs| > 0 && IsCoinbase(b.txs[0])
    ensures forall t :: t in b.txs ==> Spends(t) <= m.Keys
  {
    hide SpendOk;
    forall t | t in b.txs
      ensures Spends(t) <= m.Keys
    {
      var i :| 0 <= i < |b.txs| && b.txs[i] == t;
      if i == 0 {
        ZeroSpendsNothing(t);
      } else {
        SpendOkInputs(t, m);
      }
    }
  }

  /** Validation against the ledger accepts exactly the blocks that the rules on blocks allow: on every valid
      chain, for every block whose coinbase carries its height and whose sums fit the counters. */
  lemma {:induction false} LawfulExactlyWhen(rules: Rules, g: Block, chain: seq<Block>, b: Block)
    requires TxHashSound() && ChainOk(rules, g, chain)
    ensures CanExtend(rules, chain, b) <==> Lawful(rules, chain, b) && CarriesHeight(b) && Fits(Fold(chain + [b]))
  {
    hide ChainOk, TxHashSound, Fold, Shape, BlockOk, AllSpendOk, AllTokensOk, AllMature, AllStakesExact, AllRegistrationsOk, MintOk, Tagged, CarriesHeight, Fits,
         SpendLawful, TokensLawful, CoinbaseLawful, StakesLawful, RegistrationsLawful, AllRipe, CoinbaseOk, SingleCoinbase;
    ShapeIs(b);
    CarriesHeightIs(b);
    StakesLawfulIs(rules, b);
    RegistrationsLawfulIs(rules, chain, b);
    if Shape(b) && b.header.height == |chain| > 0 {
      OneCoinbase(b);
      SpendingIs(rules, g, chain, b);
      CoinbaseLawfulIs(rules, g, chain, b);
    }
  }

  lemma OneCoinbase(b: Block)
    requires BlockOk(b)
    ensures |b.txs| > 0 && SingleCoinbase(b.txs) && IsCoinbase(b.txs[0])
  {
  }
}
