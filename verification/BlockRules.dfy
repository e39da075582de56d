/** Structural validation of a block (pkg/block/validate.go). */
module BlockRules {
  import opened Primitives
  import opened Types
  import opened Ledger
  import opened TxRules
  import opened Merkle

  predicate IsCoinbase(t: Tx) {
    |t.inputs| == 1 && t.inputs[0].prevOut.IsZero()
  }

  predicate HasZeroInput(t: Tx) {
    exists i :: 0 <= i < |t.inputs| && t.inputs[i].prevOut.IsZero()
  }

  function TxsSize(txs: seq<Tx>): nat {
    Sum(txs, SigningSize)
  }

  /** What Block.Validate demands. */
  ghost predicate BlockOk(b: Block) {
    && b.header.version == 1
    && b.header.timestamp != 0
    && 0 < |b.txs| <= MAX_BLOCK_TXS
    && HEADER_SIZE + TxsSize(b.txs) <= MAX_BLOCK_SIZE
    && IsCoinbase(b.txs[0])
    && (forall i :: 1 <= i < |b.txs| ==> !HasZeroInput(b.txs[i]))
    && b.header.merkleRoot == Root(TxHashes(b.txs))
    && Canonical(b.txs)
    && (forall i :: 0 <= i < |b.txs| ==> TxOk(b.txs[i]))
    && NoSharedSpend(b.txs)
  }

  /** Transactions after the coinbase come in strictly ascending hash order. */
  ghost predicate Canonical(txs: seq<Tx>) {
    forall i :: 2 <= i < |txs| ==> TxHash(txs[i - 1]) < TxHash(txs[i])
  }

  ghost predicate NoSharedSpend(txs: seq<Tx>) {
    forall i, j :: 0 <= i < j < |txs| ==> Spends(txs[i]) !! Spends(txs[j])
  }

  lemma {:induction false} CanonicalAscends(txs: seq<Tx>, i: nat, j: nat)
    requires Canonical(txs) && 1 <= i < j < |txs|
    ensures TxHash(txs[i]) < TxHash(txs[j])
    decreases j
  {
    if i < j - 1 {
      CanonicalAscends(txs, i, j - 1);
    }
  }

  /** The inner loop over one transaction's inputs: does it spend an outpoint already in `before`? */
  method MarkSpends(t: Tx, before: set<Outpoint>) returns (shared: bool, all: set<Outpoint>)
    requires DistinctInputs(t.inputs)
    ensures shared <==> !(Spends(t) !! before)
    ensures !shared ==> all == before + Spends(t)
  {
    all := before;
    for k := 0 to |t.inputs|
      invariant all == before + SpendsOf(t.inputs[..k])
      invariant SpendsOf(t.inputs[..k]) !! before
    {
      var op := t.inputs[k].prevOut;
      SpendsOfGrows(t.inputs, k);
      DistinctNotSpent(t.inputs, k);
      if op.IsZero() {
        continue;
      }
      if op in all {
        assert op in before && op in Spends(t);
        return true, all;
      }
      all := all + {op};
    }
    assert t.inputs[..|t.inputs|] == t.inputs;
    return false, all;
  }

  lemma {:induction false} SharedStep(txs: seq<Tx>, i: nat)
    requires i < |txs| && NoSharedSpend(txs[..i])
    ensures AllSpends(txs[..i + 1]) == AllSpends(txs[..i]) + Spends(txs[i])
    ensures NoSharedSpend(txs[..i + 1]) <==> Spends(txs[i]) !! AllSpends(txs[..i])
  {
    hide Spends;
    var less, more := txs[..i], txs[..i + 1];
    assert more[..i] == less && more[i] == txs[i];
    assert AllSpends(more) == AllSpends(less) + Spends(txs[i]);
    hide AllSpends;
    assert forall j :: 0 <= j < i ==> less[j] == more[j];
    AllSpendsIs(less);
    if Spends(txs[i]) !! AllSpends(less) {
      forall j | 0 <= j < i
        ensures Spends(more[j]) !! Spends(txs[i])
      {
        assert Spends(less[j]) <= AllSpends(less);
      }
    } else {
      var op :| op in Spends(txs[i]) && op in AllSpends(less);
      var j :| 0 <= j < i && op in Spends(less[j]);
      assert op in Spends(more[j]) && op in Spends(more[i]);
    }
  }

  lemma SharedPrefix(txs: seq<Tx>, n: nat)
    requires n <= |txs| && NoSharedSpend(txs)
    ensures NoSharedSpend(txs[..n])
  {
  }

  /** Scan for an outpoint spent by two transactions. */
  method SharesSpend(txs: seq<Tx>) returns (shared: bool)
    requires forall i :: 0 <= i < |txs| ==> TxOk(txs[i])
    ensures shared <==> !NoSharedSpend(txs)
  {
    var all: set<Outpoint> := {};
    for i := 0 to |txs|
      invariant all == AllSpends(txs[..i])
      invariant NoSharedSpend(txs[..i])
    {
      SharedStep(txs, i);
      shared, all := MarkSpends(txs[i], all);
      if shared {
        if NoSharedSpend(txs) {
          SharedPrefix(txs, i + 1);
        }
        return true;
      }
    }
    assert txs[..|txs|] == txs;
    return false;
  }

  lemma DistinctNotSpent(ins: seq<Input>, k: nat)
    requires k < |ins| && DistinctInputs(ins)
    ensures ins[k].prevOut !in SpendsOf(ins[..k])
  {
  }

  /** Block.Validate. */
  method ValidateBlock(b: Block) returns (ok: bool)
    ensures ok <==> BlockOk(b)
  {
    if b.header.version != 1 || b.header.timestamp == 0 || |b.txs| == 0 || |b.txs| > MAX_BLOCK_TXS {
      return false;
    }
    assert TxsSize(b.txs[..0]) == 0;
    hide TxOk, HasZeroInput, NoSharedSpend, Root, Sum;
    var size := HEADER_SIZE;
    for i := 0 to |b.txs|
      invariant size == HEADER_SIZE + TxsSize(b.txs[..i])
    {
      SumPrefix(b.txs, SigningSize, i);
      size := size + SigningSize(b.txs[i]);
    }
    assert b.txs[..|b.txs|] == b.txs;
    if size > MAX_BLOCK_SIZE || !IsCoinbase(b.txs[0]) {
      return false;
    }
    for i := 1 to |b.txs|
      invariant forall j :: 1 <= j < i ==> !HasZeroInput(b.txs[j])
    {
      if HasZeroInput(b.txs[i]) {
        return false;
      }
    }
    var hashes := TxHashes(b.txs);
    var root := ComputeMerkleRoot(hashes);
    if b.header.merkleRoot != root {
      return false;
    }
    for i := 2 to Max(2, |hashes|)
      invariant forall j :: 2 <= j < i ==> TxHash(b.txs[j - 1]) < TxHash(b.txs[j])
    {
      if hashes[i - 1] >= hashes[i] {
        return false;
      }
    }
    for i := 0 to |b.txs|
      invariant forall j :: 0 <= j < i ==> TxOk(b.txs[j])
    {
      var txOk := Validate(b.txs[i]);
      if !txOk {
        return false;
      }
    }
    var shared := SharesSpend(b.txs);
    return !shared;
  }
}
