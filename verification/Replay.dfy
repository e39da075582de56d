/** The specification of a chain's state: fold the blocks from genesis over an empty ledger.
    Everything the node keeps incrementally is later proved equal to this fold. */
module Replay {
  import opened Primitives
  import opened Types
  import opened Ledger
  import opened Weights
  import opened TxRules
  import opened BlockRules
  import opened StateRules

  datatype State = State(utxos: UtxoMap, supply: nat, cumDiff: nat, registered: nat)

  const EMPTY: State := State(map[], 0, 0, 0)

  function Registrations(b: Block): nat {
    BlockOut(b.txs, IsRegistration)
  }

  function Reward(utxos: UtxoMap, b: Block): nat {
    if |b.txs| == 0 then 0 else Minted(utxos, b.txs)
  }

  function Advance(s: State, b: Block): State {
    State(ApplyBlock(s.utxos, b), s.supply + Reward(s.utxos, b), s.cumDiff + b.header.difficulty, s.registered + Registrations(b))
  }

  function Fold(chain: seq<Block>): State {
    if |chain| == 0 then EMPTY else Advance(Fold(chain[..|chain| - 1]), chain[|chain| - 1])
  }

  lemma {:induction false} FoldStep(chain: seq<Block>, b: Block)
    ensures Fold(chain + [b]) == Advance(Fold(chain), b)
  {
    assert (chain + [b])[..|chain|] == chain;
  }

  lemma {:induction false} FoldPrefix(chain: seq<Block>, i: nat)
    requires i < |chain|
    ensures Fold(chain[..i + 1]) == Advance(Fold(chain[..i]), chain[i])
  {
    assert chain[..i + 1][..i] == chain[..i];
  }

  // ---------------------------------------------------------------- the hash assumption

  /** A coinbase as block producers make it: its marker carries eight bytes. */
  predicate MarkedCoinbase(t: Tx) {
    IsCoinbase(t) && |t.inputs[0].signature| == 8
  }

  /** The coinbase of a genesis block: no marker, and payments to addresses only. */
  predicate GenesisCoinbase(t: Tx) {
    IsCoinbase(t) && t.inputs[0].signature == [] && forall i :: 0 <= i < |t.outputs| ==> PaysAddress(t.outputs[i])
  }

  predicate PaysAddress(o: Output) {
    o.script.kind == P2PKH && |o.script.data| == ADDRESS_SIZE && o.token.None?
  }

  /** What is assumed of the transaction hash: that it has no collisions where the hashed bytes have
      none (pkg/tx/transaction.go). The number of inputs and the first outpoint stand at fixed places in
      them. The marker of a coinbase follows with its length, but only if it is not empty, so markers
      are compared among those of eight bytes; such a coinbase is never read as one of genesis, whose
      first output would make it claim more outputs than its bytes can hold. */
  ghost predicate TxHashSound() {
    && (forall t: Tx, u: Tx :: TxHash(t) == TxHash(u) ==> SameFirst(t, u))
    && (forall t: Tx, u: Tx :: TxHash(t) == TxHash(u) && MarkedCoinbase(t) && MarkedCoinbase(u) ==> t.inputs[0].signature == u.inputs[0].signature)
    && (forall t: Tx, u: Tx :: TxHash(t) == TxHash(u) && MarkedCoinbase(t) ==> !GenesisCoinbase(u))
  }

  predicate SameFirst(t: Tx, u: Tx) {
    |t.inputs| == |u.inputs| && (|t.inputs| > 0 ==> t.inputs[0].prevOut == u.inputs[0].prevOut)
  }

  function LittleEndian(x: nat, n: nat): Bytes {
    if n == 0 then [] else [x % 256] + LittleEndian(x / 256, n - 1)
  }

  function Exp256(n: nat): nat {
    if n == 0 then 1 else 256 * Exp256(n - 1)
  }

  lemma {:induction false} LittleEndianInjective(x: nat, y: nat, n: nat)
    requires x < Exp256(n) && y < Exp256(n) && LittleEndian(x, n) == LittleEndian(y, n)
    ensures x == y
    decreases n
  {
    if n > 0 {
      assert LittleEndian(x, n)[0] == LittleEndian(y, n)[0];
      assert LittleEndian(x, n)[1..] == LittleEndian(y, n)[1..];
      LittleEndianInjective(x / 256, y / 256, n - 1);
    }
  }

  lemma {:induction false} LittleEndianLength(x: nat, n: nat)
    ensures |LittleEndian(x, n)| == n
    decreases n
  {
    if n > 0 {
      LittleEndianLength(x / 256, n - 1);
    }
  }

  /** Block producers put the height into the coinbase marker (internal/miner/miner.go). */
  predicate Tagged(b: Block) {
    |b.txs| > 0 && |b.txs[0].inputs| > 0 && b.txs[0].inputs[0].signature == HeightTag(b.header.height)
  }

  // ---------------------------------------------------------------- valid chains

  /** The block that CreateGenesisBlock builds: one coinbase paying token-free, spendable outputs. */
  ghost predicate GenesisOk(g: Block) {
    && g.header.height == 0
    && g.header.difficulty == 0
    && g.header.prevHash == ZERO_HASH
    && g.header.validatorSig == []
    && |g.txs| == 1
    && IsCoinbase(g.txs[0])
    && g.txs[0].inputs[0].signature == []
    && OutSum(g.txs[0], ValueOf) <= MAX_U64
    && forall i :: 0 <= i < |g.txs[0].outputs| ==> PaysAddress(g.txs[0].outputs[i])
  }

  ghost predicate Fits(s: State) {
    s.supply <= MAX_U64 && s.cumDiff <= MAX_U64
  }

  /** `b` follows `chain` and keeps every rule. */
  ghost predicate Acceptable(rules: Rules, chain: seq<Block>, b: Block) {
    && |chain| > 0
    && b.header.height == |chain|
    && b.header.prevHash == chain[|chain| - 1].Hash()
    && BlockOk(b)
    && Tagged(b)
    && StateValid(rules, Fold(chain).utxos, Fold(chain).supply, Fold(chain).registered, b)
  }

  /** `b` is a block the node may put on top of `chain`: acceptable, and no counter overflows. */
  ghost predicate CanExtend(rules: Rules, chain: seq<Block>, b: Block) {
    Acceptable(rules, chain, b) && Fits(Fold(chain + [b]))
  }

  ghost predicate ChainOk(rules: Rules, genesis: Block, chain: seq<Block>) {
    && |chain| > 0
    && chain[0] == genesis
    && GenesisOk(genesis)
    && forall i :: 1 <= i < |chain| ==> CanExtend(rules, chain[..i], chain[i])
  }

  lemma {:induction false} ChainExtends(rules: Rules, genesis: Block, chain: seq<Block>, b: Block)
    requires ChainOk(rules, genesis, chain) && CanExtend(rules, chain, b)
    ensures ChainOk(rules, genesis, chain + [b])
  {
    hide CanExtend, Acceptable, GenesisOk;
    var all := chain + [b];
    forall i | 1 <= i < |all|
      ensures CanExtend(rules, all[..i], all[i])
    {
      if i < |chain| {
        assert all[..i] == chain[..i];
      } else {
        assert all[..i] == chain;
      }
    }
  }

  lemma {:induction false} ChainPrefix(rules: Rules, genesis: Block, chain: seq<Block>, n: nat)
    requires ChainOk(rules, genesis, chain) && 0 < n <= |chain|
    ensures ChainOk(rules, genesis, chain[..n])
  {
    hide CanExtend, GenesisOk;
    forall i | 1 <= i < n
      ensures CanExtend(rules, chain[..n][..i], chain[..n][i])
    {
      assert chain[..n][..i] == chain[..i];
    }
  }

  /** A chain above genesis is a valid chain with one more block. */
  lemma {:induction false} LastBlock(rules: Rules, genesis: Block, chain: seq<Block>)
    requires ChainOk(rules, genesis, chain)
    ensures |chain| > 0 && GenesisOk(genesis)
    ensures |chain| == 1 ==> chain == [genesis]
    ensures |chain| > 1 ==>
              var before, b := chain[..|chain| - 1], chain[|chain| - 1];
              && ChainOk(rules, genesis, before)
              && CanExtend(rules, before, b)
              && BlockOk(b)
              && chain == before + [b]
              && Fold(chain) == Advance(Fold(before), b)
              && AllTxs(chain) == AllTxs(before) + b.txs
              && StateValid(rules, Fold(before).utxos, Fold(before).supply, Fold(before).registered, b)
  {
    hide BlockOk, StateValid, Tagged, Fits, GenesisOk, Advance;
    if |chain| > 1 {
      ChainPrefix(rules, genesis, chain, |chain| - 1);
      assert CanExtend(rules, chain[..|chain| - 1], chain[|chain| - 1]);
    }
  }

  lemma ChainHeights(rules: Rules, genesis: Block, chain: seq<Block>, i: nat)
    requires ChainOk(rules, genesis, chain) && i < |chain|
    ensures chain[i].header.height == i
    ensures i > 0 ==> chain[i].header.prevHash == chain[i - 1].Hash() && BlockOk(chain[i]) && Tagged(chain[i])
  {
    if i > 0 {
      assert CanExtend(rules, chain[..i], chain[i]);
    }
  }

  // ---------------------------------------------------------------- freshness

  /** Every transaction of the chain, in order. */
  function AllTxs(chain: seq<Block>): seq<Tx> {
    if |chain| == 0 then [] else AllTxs(chain[..|chain| - 1]) + chain[|chain| - 1].txs
  }

  ghost predicate DistinctHashes(txs: seq<Tx>) {
    forall i, j :: 0 <= i < j < |txs| ==> TxHash(txs[i]) != TxHash(txs[j])
  }

  ghost predicate Named(txs: seq<Tx>, h: Hash) {
    exists t :: t in txs && TxHash(t) == h
  }

  /** Every unspent output was created by a listed transaction. */
  ghost predicate Origins(m: UtxoMap, txs: seq<Tx>) {
    forall op :: op in m ==> Named(txs, op.txId)
  }

  /** Every spent outpoint is gone, and its creator is listed. */
  ghost predicate SpentGone(m: UtxoMap, txs: seq<Tx>) {
    forall t, op :: t in txs && op in Spends(t) ==> op !in m && Named(txs, op.txId)
  }

  /** Where the unspent outputs of a chain come from, and what its spent outpoints can never be again. */
  ghost predicate Provenance(m: UtxoMap, txs: seq<Tx>) {
    KeysOk(m) && DistinctHashes(txs) && Origins(m, txs) && SpentGone(m, txs)
  }

  function HeightTag(h: nat): Bytes {
    LittleEndian(h, 8)
  }

  ghost predicate TagBelow(tag: Bytes, height: nat) {
    exists h: nat :: h < height && tag == HeightTag(h)
  }

  /** Every coinbase on the chain carries the tag of a height of the chain, or is that of genesis. */
  ghost predicate CoinbasesTagged(txs: seq<Tx>, height: nat) {
    forall t :: t in txs && IsCoinbase(t) ==> GenesisCoinbase(t) || TagBelow(t.inputs[0].signature, height)
  }

  lemma ZeroSpendsNothing(t: Tx)
    requires IsCoinbase(t)
    ensures Spends(t) == {}
  {
  }

  lemma NonCoinbaseSpends(t: Tx)
    requires TxOk(t) && !HasZeroInput(t)
    ensures t.inputs[0].prevOut in Spends(t)
  {
    assert !t.inputs[0].prevOut.IsZero();
  }

  /** A transaction that spends an unspent output is not on the chain yet. */
  lemma {:induction false} SpenderIsNew(m: UtxoMap, txs: seq<Tx>, t: Tx)
    requires TxHashSound() && Provenance(m, txs)
    requires SpendOk(t, m) && !HasZeroInput(t)
    ensures forall u :: u in txs ==> TxHash(u) != TxHash(t)
  {
    NonCoinbaseSpends(t);
    SpendOkInputs(t, m);
    forall u | u in txs
      ensures TxHash(u) != TxHash(t)
    {
      assert SameFirst(u, t) ==> !u.inputs[0].prevOut.IsZero() && u.inputs[0].prevOut in Spends(u);
    }
  }

  lemma {:induction false} CoinbaseIsNew(txs: seq<Tx>, height: nat, t: Tx)
    requires TxHashSound() && CoinbasesTagged(txs, height)
    requires IsCoinbase(t) && t.inputs[0].signature == HeightTag(height) && height <= MAX_U64
    ensures forall u :: u in txs ==> TxHash(u) != TxHash(t)
  {
    forall u | u in txs
      ensures TxHash(u) != TxHash(t)
    {
      if TxHash(u) == TxHash(t) {
        assert SameFirst(u, t) && IsCoinbase(u);
        LittleEndianLength(height, 8);
        var h: nat :| h < height && u.inputs[0].signature == HeightTag(h);
        LittleEndianLength(h, 8);
        assert Exp256(8) == TWO_64 by { assert Exp256(4) == 0x1_0000_0000; }
        LittleEndianInjective(h, height, 8);
      }
    }
  }

  /** Freshness is not an assumption: given sound hashing and height-tagged coinbases, a block
      that validates against the unspent outputs creates only outpoints never seen before. */
  lemma {:induction false} ValidBlockIsFresh(m: UtxoMap, txs: seq<Tx>, b: Block)
    requires TxHashSound() && Provenance(m, txs) && CoinbasesTagged(txs, b.header.height)
    requires BlockOk(b) && Tagged(b) && AllSpendOk(m, b.txs)
    ensures forall t, u :: t in b.txs && u in txs ==> TxHash(t) != TxHash(u)
    ensures DistinctHashes(b.txs)
    ensures Snapshot(m, b.txs)
  {
    forall t, u | t in b.txs && u in txs
      ensures TxHash(t) != TxHash(u)
    {
      var i :| 0 <= i < |b.txs| && b.txs[i] == t;
      if i == 0 {
        CoinbaseIsNew(txs, b.header.height, t);
      } else {
        SpenderIsNew(m, txs, t);
      }
    }
    forall i, j | 0 <= i < j < |b.txs|
      ensures TxHash(b.txs[i]) != TxHash(b.txs[j])
    {
      if i == 0 {
        assert SameFirst(b.txs[0], b.txs[j]) ==> HasZeroInput(b.txs[j]);
      } else {
        CanonicalAscends(b.txs, i, j);
      }
    }
    forall i | 0 <= i < |b.txs|
      ensures Spends(b.txs[i]) <= m.Keys && Creates(b.txs[i]) !! m.Keys
    {
      if i == 0 {
        ZeroSpendsNothing(b.txs[0]);
      } else {
        SpendOkInputs(b.txs[i], m);
      }
    }
  }

  lemma DistinctConcat(a: seq<Tx>, b: seq<Tx>)
    requires DistinctHashes(a) && DistinctHashes(b)
    requires forall t, u :: t in a && u in b ==> TxHash(t) != TxHash(u)
    ensures DistinctHashes(a + b)
  {
    var ab := a + b;
    forall i, j | 0 <= i < j < |ab|
      ensures TxHash(ab[i]) != TxHash(ab[j])
    {
      if i < |a| <= j {
        assert ab[i] in a && ab[j] in b;
      }
    }
  }

  lemma NamedGrows(txs: seq<Tx>, more: seq<Tx>, h: Hash)
    requires Named(txs, h) || Named(more, h)
    ensures Named(txs + more, h)
  {
    var t :| (t in txs || t in more) && TxHash(t) == h;
    assert t in txs + more;
  }

  lemma {:induction false} OriginsStep(m: UtxoMap, txs: seq<Tx>, more: seq<Tx>, height: nat)
    requires Origins(m, txs) && Snapshot(m, more)
    ensures Origins(ApplyTxs(m, more, height), txs + more)
  {
    AfterPrefix(m, more, height);
    AllCreatesIs(more);
    forall op | op in ApplyTxs(m, more, height)
      ensures Named(txs + more, op.txId)
    {
      if op !in m {
        var i :| 0 <= i < |more| && op in Creates(more[i]);
        assert more[i] in more;
      }
      NamedGrows(txs, more, op.txId);
    }
  }

  /** A spent outpoint that some old transaction created is not created again by a new one. */
  lemma {:induction false} NotRecreated(txs: seq<Tx>, more: seq<Tx>, op: Outpoint)
    requires Named(txs, op.txId)
    requires forall t, u :: t in more && u in txs ==> TxHash(t) != TxHash(u)
    ensures op !in AllCreates(more)
  {
    var u :| u in txs && TxHash(u) == op.txId;
    AllCreatesIs(more);
    assert forall i :: 0 <= i < |more| ==> more[i] in more && op !in Creates(more[i]);
  }

  lemma {:induction false} SpentGoneStep(m: UtxoMap, txs: seq<Tx>, more: seq<Tx>, height: nat)
    requires Origins(m, txs) && SpentGone(m, txs) && Snapshot(m, more)
    requires forall t, u :: t in more && u in txs ==> TxHash(t) != TxHash(u)
    ensures SpentGone(ApplyTxs(m, more, height), txs + more)
  {
    AfterPrefix(m, more, height);
    AllSpendsIs(more);
    forall t, op | t in txs + more && op in Spends(t)
      ensures op !in ApplyTxs(m, more, height) && Named(txs + more, op.txId)
    {
      if t !in txs {
        var i :| 0 <= i < |more| && more[i] == t;
        assert op in AllSpends(more) && op in m;
      }
      NotRecreated(txs, more, op);
      NamedGrows(txs, more, op.txId);
    }
  }

  lemma {:induction false} ProvenanceStep(m: UtxoMap, txs: seq<Tx>, more: seq<Tx>, height: nat)
    requires Provenance(m, txs) && Snapshot(m, more) && DistinctHashes(more)
    requires forall t, u :: t in more && u in txs ==> TxHash(t) != TxHash(u)
    ensures Provenance(ApplyTxs(m, more, height), txs + more)
  {
    hide Snapshot, Origins, SpentGone;
    KeysOkAfter(m, more, height);
    DistinctConcat(txs, more);
    OriginsStep(m, txs, more, height);
    SpentGoneStep(m, txs, more, height);
  }

  lemma TaggedStep(txs: seq<Tx>, b: Block)
    requires CoinbasesTagged(txs, b.header.height) && BlockOk(b) && Tagged(b)
    ensures CoinbasesTagged(txs + b.txs, b.header.height + 1)
  {
    var all := txs + b.txs;
    forall t | t in all && IsCoinbase(t)
      ensures GenesisCoinbase(t) || TagBelow(t.inputs[0].signature, b.header.height + 1)
    {
      if t in txs {
        if !GenesisCoinbase(t) {
          var h: nat :| h < b.header.height && t.inputs[0].signature == HeightTag(h);
          assert h < b.header.height + 1;
        }
      } else {
        var i :| 0 <= i < |b.txs| && b.txs[i] == t;
        assert i > 0 ==> HasZeroInput(b.txs[i]);
        assert t.inputs[0].signature == HeightTag(b.header.height);
      }
    }
  }

  lemma GenesisFold(g: Block)
    requires g.header.height == 0
    ensures AllTxs([g]) == g.txs && Fold([g]) == Advance(EMPTY, g) && Fold([g]).utxos == ApplyTxs(map[], g.txs, 0)
  {
    assert [g][..0] == [];
    assert AllTxs([]) + g.txs == g.txs;
  }

  lemma GenesisProvenance(g: Block)
    requires GenesisOk(g)
    ensures Provenance(Fold([g]).utxos, AllTxs([g])) && CoinbasesTagged(AllTxs([g]), 1)
    ensures Snapshot(map[], g.txs)
  {
    hide Provenance, DistinctHashes;
    ZeroSpendsNothing(g.txs[0]);
    assert Snapshot(map[], g.txs);
    NothingYet();
    GenesisFold(g);
    assert DistinctHashes(g.txs) by { OneIsDistinct(g.txs); }
    ProvenanceStep(map[], [], g.txs, 0);
    assert [] + g.txs == g.txs;
  }

  lemma NothingYet()
    ensures Provenance(map[], [])
  {
  }

  lemma OneIsDistinct(txs: seq<Tx>)
    requires |txs| == 1
    ensures DistinctHashes(txs)
  {
  }

  /** On every valid chain: all transaction hashes are distinct, and no outpoint comes back once spent. */
  lemma {:induction false} ChainProvenance(rules: Rules, g: Block, chain: seq<Block>)
    requires TxHashSound() && ChainOk(rules, g, chain)
    ensures Provenance(Fold(chain).utxos, AllTxs(chain))
    ensures CoinbasesTagged(AllTxs(chain), |chain|)
    decreases |chain|
  {
    var n := |chain| - 1;
    if n == 0 {
      assert chain == [g];
      GenesisProvenance(g);
    } else {
      ChainPrefix(rules, g, chain, n);
      ChainProvenance(rules, g, chain[..n]);
      assert CanExtend(rules, chain[..n], chain[n]);
      var m := Fold(chain[..n]).utxos;
      ValidBlockIsFresh(m, AllTxs(chain[..n]), chain[n]);
      ProvenanceStep(m, AllTxs(chain[..n]), chain[n].txs, n);
      TaggedStep(AllTxs(chain[..n]), chain[n]);
    }
  }

  /** What the next valid block brings: a snapshot of fresh outputs. */
  lemma {:induction false} AcceptableFresh(rules: Rules, g: Block, chain: seq<Block>, b: Block)
    requires TxHashSound() && ChainOk(rules, g, chain) && Acceptable(rules, chain, b)
    ensures Snapshot(Fold(chain).utxos, b.txs) && KeysOk(Fold(chain).utxos)
    ensures forall t, u :: t in b.txs && u in AllTxs(chain) ==> TxHash(t) != TxHash(u)
    ensures DistinctHashes(b.txs)
  {
    ChainProvenance(rules, g, chain);
    ValidBlockIsFresh(Fold(chain).utxos, AllTxs(chain), b);
  }

  lemma NextBlockFresh(rules: Rules, g: Block, chain: seq<Block>, b: Block)
    requires TxHashSound() && ChainOk(rules, g, chain) && CanExtend(rules, chain, b)
    ensures Snapshot(Fold(chain).utxos, b.txs) && KeysOk(Fold(chain).utxos)
    ensures forall t, u :: t in b.txs && u in AllTxs(chain) ==> TxHash(t) != TxHash(u)
    ensures DistinctHashes(b.txs)
  {
    hide Acceptable, ChainOk, Snapshot, KeysOk, DistinctHashes;
    AcceptableFresh(rules, g, chain, b);
  }
}
