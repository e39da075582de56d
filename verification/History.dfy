/** The ledger of a valid chain read off its blocks: what is unspent, under which record, who spent the rest
    and when. Nothing here is said through the functions that keep the ledger. */
module History {
  import opened Primitives
  import opened Types
  import opened Ledger
  import opened Weights
  import opened TxRules
  import opened BlockRules
  import opened StateRules
  import opened Replay
  import opened Undoing
  import opened Validators

  // ---------------------------------------------------------------- creating and spending

  /** `op` is an output of transaction n of block k. */
  ghost predicate Made(chain: seq<Block>, k: nat, n: nat, op: Outpoint) {
    k < |chain| && n < |chain[k].txs| && op.txId == TxHash(chain[k].txs[n]) && op.index < |chain[k].txs[n].outputs|
  }

  lemma MadeIs(chain: seq<Block>, k: nat, n: nat, op: Outpoint)
    requires Made(chain, k, n, op)
    ensures k < |chain| && n < |chain[k].txs| && op.txId == TxHash(chain[k].txs[n]) && op.index < |chain[k].txs[n].outputs|
  {
  }

  function OutputAt(chain: seq<Block>, k: nat, n: nat, op: Outpoint): Output
    requires Made(chain, k, n, op)
  {
    chain[k].txs[n].outputs[op.index]
  }

  /** Input j of transaction n of block k spends `op`; the zero outpoint of a coinbase is nothing to spend. */
  ghost predicate Used(chain: seq<Block>, k: nat, n: nat, j: nat, op: Outpoint) {
    k < |chain| && n < |chain[k].txs| && j < |chain[k].txs[n].inputs| && chain[k].txs[n].inputs[j].prevOut == op && op != Outpoint(0, 0)
  }

  ghost predicate MadeOn(chain: seq<Block>, op: Outpoint) {
    exists k: nat, n: nat :: Made(chain, k, n, op)
  }

  ghost predicate UsedOn(chain: seq<Block>, op: Outpoint) {
    exists k: nat, n: nat, j: nat :: Used(chain, k, n, j, op)
  }

  lemma {:induction false} UsedBy(t: Tx, op: Outpoint)
    ensures op in Spends(t) <==> exists j: nat :: 0 <= j < |t.inputs| && t.inputs[j].prevOut == op && op != Outpoint(0, 0)
  {
    assert op.IsZero() <==> op == Outpoint(0, 0);
    if exists j: nat :: 0 <= j < |t.inputs| && t.inputs[j].prevOut == op && op != Outpoint(0, 0) {
      var j: nat :| 0 <= j < |t.inputs| && t.inputs[j].prevOut == op && op != Outpoint(0, 0);
      assert !t.inputs[j].prevOut.IsZero();
    }
  }

  lemma {:induction false} MadeBy(t: Tx, op: Outpoint)
    ensures op in Creates(t) <==> op.txId == TxHash(t) && op.index < |t.outputs|
  {
    if op.txId == TxHash(t) && op.index < |t.outputs| {
      assert Outpoint(TxHash(t), op.index) == op;
    }
  }

  lemma {:induction false} MadeStep(chain: seq<Block>, op: Outpoint)
    requires |chain| > 0
    ensures var n := |chain| - 1; MadeOn(chain, op) <==> MadeOn(chain[..n], op) || op in AllCreates(chain[n].txs)
  {
    var n := |chain| - 1;
    AllCreatesIs(chain[n].txs);
    if MadeOn(chain, op) {
      var k: nat, i: nat :| Made(chain, k, i, op);
      if k < n {
        assert Made(chain[..n], k, i, op);
      } else {
        MadeBy(chain[n].txs[i], op);
      }
    }
    if MadeOn(chain[..n], op) {
      var k: nat, i: nat :| Made(chain[..n], k, i, op);
      assert Made(chain, k, i, op);
    }
    if op in AllCreates(chain[n].txs) {
      var i: nat :| 0 <= i < |chain[n].txs| && op in Creates(chain[n].txs[i]);
      MadeBy(chain[n].txs[i], op);
      assert Made(chain, n, i, op);
    }
  }

  lemma {:induction false} UsedStep(chain: seq<Block>, op: Outpoint)
    requires |chain| > 0
    ensures var n := |chain| - 1; UsedOn(chain, op) <==> UsedOn(chain[..n], op) || op in AllSpends(chain[n].txs)
  {
    var n := |chain| - 1;
    AllSpendsIs(chain[n].txs);
    if UsedOn(chain, op) {
      var k: nat, i: nat, j: nat :| Used(chain, k, i, j, op);
      if k < n {
        assert Used(chain[..n], k, i, j, op);
      } else {
        UsedBy(chain[n].txs[i], op);
      }
    }
    if UsedOn(chain[..n], op) {
      var k: nat, i: nat, j: nat :| Used(chain[..n], k, i, j, op);
      assert Used(chain, k, i, j, op);
    }
    if op in AllSpends(chain[n].txs) {
      var i: nat :| 0 <= i < |chain[n].txs| && op in Spends(chain[n].txs[i]);
      UsedBy(chain[n].txs[i], op);
      var j: nat :| 0 <= j < |chain[n].txs[i].inputs| && chain[n].txs[i].inputs[j].prevOut == op;
      assert Used(chain, n, i, j, op);
    }
  }

  /** What was spent before is not made again by a block of new transactions. */
  lemma {:induction false} UsedIsOld(rules: Rules, g: Block, chain: seq<Block>, txs: seq<Tx>, op: Outpoint)
    requires TxHashSound() && ChainOk(rules, g, chain) && UsedOn(chain, op)
    requires forall t, u :: t in txs && u in AllTxs(chain) ==> TxHash(t) != TxHash(u)
    ensures op !in AllCreates(txs)
  {
    hide ChainOk, TxHashSound, AllTxs, Fold, Spends, Creates, AllCreates;
    var k: nat, i: nat, j: nat :| Used(chain, k, i, j, op);
    var t := chain[k].txs[i];
    UsedBy(t, op);
    ListedTx(chain, k, t);
    ChainProvenance(rules, g, chain);
    NotRecreated(AllTxs(chain), txs, op);
  }

  lemma {:induction false} ListedTx(chain: seq<Block>, k: nat, t: Tx)
    requires k < |chain| && t in chain[k].txs
    ensures t in AllTxs(chain)
  {
    if k < |chain| - 1 {
      ListedTx(chain[..|chain| - 1], k, t);
    }
  }

  /** Genesis and every block above it: what a block of a valid chain does to the unspent outputs. */
  lemma {:induction false} BlockEffect(rules: Rules, g: Block, chain: seq<Block>)
    requires TxHashSound() && ChainOk(rules, g, chain)
    ensures var n := |chain| - 1; var m := if n == 0 then map[] else Fold(chain[..n]).utxos;
            && Fold(chain).utxos == ApplyTxs(m, chain[n].txs, n) && Snapshot(m, chain[n].txs)
            && (n > 0 ==> ChainOk(rules, g, chain[..n]))
            && forall t, u :: t in chain[n].txs && u in AllTxs(chain[..n]) ==> TxHash(t) != TxHash(u)
  {
    hide *;
    var n := |chain| - 1;
    LastBlock(rules, g, chain);
    ChainHeights(rules, g, chain, n);
    if n == 0 {
      NoTxsYet(chain);
      GenesisHeight(g);
      GenesisFold(g);
      GenesisProvenance(g);
    } else {
      NextBlockFresh(rules, g, chain[..n], chain[n]);
      Applied(Fold(chain[..n]), chain[n]);
    }
  }

  lemma NoTxsYet(chain: seq<Block>)
    ensures AllTxs(chain[..0]) == []
  {
  }

  lemma GenesisHeight(g: Block)
    requires GenesisOk(g)
    ensures g.header.height == 0
  {
  }

  lemma Applied(s: State, b: Block)
    ensures Advance(s, b).utxos == ApplyTxs(s.utxos, b.txs, b.header.height)
  {
  }

  /** The unspent outputs of a valid chain are exactly those that one of its transactions made and none
      has used. */
  lemma {:induction false} UnspentExactlyWhen(rules: Rules, g: Block, chain: seq<Block>, op: Outpoint)
    requires TxHashSound() && ChainOk(rules, g, chain)
    ensures op in Fold(chain).utxos <==> MadeOn(chain, op) && !UsedOn(chain, op)
    decreases |chain|
  {
    hide *;
    var n := |chain| - 1;
    ChainNotEmpty(rules, g, chain);
    BlockEffect(rules, g, chain);
    MadeStep(chain, op);
    UsedStep(chain, op);
    var m := if n == 0 then map[] else Fold(chain[..n]).utxos;
    AfterPrefix(m, chain[n].txs, n);
    if n > 0 {
      UnspentExactlyWhen(rules, g, chain[..n], op);
      if UsedOn(chain[..n], op) {
        UsedIsOld(rules, g, chain[..n], chain[n].txs, op);
      }
    } else {
      NothingBefore(chain, op);
    }
  }

  lemma ChainNotEmpty(rules: Rules, g: Block, chain: seq<Block>)
    requires ChainOk(rules, g, chain)
    ensures |chain| > 0
  {
  }

  lemma NothingBefore(chain: seq<Block>, op: Outpoint)
    ensures !MadeOn(chain[..0], op) && !UsedOn(chain[..0], op)
  {
  }

  /** No outpoint is made twice. */
  lemma {:induction false} MadeOnce(rules: Rules, g: Block, chain: seq<Block>, k: nat, n: nat, k': nat, n': nat, op: Outpoint)
    requires TxHashSound() && ChainOk(rules, g, chain)
    requires Made(chain, k, n, op) && Made(chain, k', n', op)
    ensures k == k' && n == n'
  {
    hide *;
    MadeIs(chain, k, n, op);
    MadeIs(chain, k', n', op);
    if k < k' {
      NewTx(rules, g, chain, k', n', k, chain[k].txs[n]);
    } else if k > k' {
      NewTx(rules, g, chain, k, n, k', chain[k'].txs[n']);
    } else if n < n' {
      HashesInBlock(rules, g, chain, k, n, n');
    } else if n > n' {
      HashesInBlock(rules, g, chain, k, n', n);
    }
  }

  lemma {:induction false} NewTx(rules: Rules, g: Block, chain: seq<Block>, k: nat, n: nat, older: nat, u: Tx)
    requires TxHashSound() && ChainOk(rules, g, chain) && k < |chain| && n < |chain[k].txs| && older < k && u in chain[older].txs
    ensures TxHash(chain[k].txs[n]) != TxHash(u)
  {
    hide *;
    var upto := chain[..k + 1];
    ChainPrefix(rules, g, chain, k + 1);
    BlockEffect(rules, g, upto);
    ListedTx(upto[..k], older, u);
    assert chain[k].txs[n] in upto[k].txs;
  }

  lemma {:induction false} HashesInBlock(rules: Rules, g: Block, chain: seq<Block>, k: nat, i: nat, j: nat)
    requires TxHashSound() && ChainOk(rules, g, chain) && k < |chain| && i < j < |chain[k].txs|
    ensures TxHash(chain[k].txs[i]) != TxHash(chain[k].txs[j])
  {
    hide *;
    ChainPrefix(rules, g, chain, k + 1);
    BlockEffect(rules, g, chain[..k + 1]);
    SnapshotHashes(if k == 0 then map[] else Fold(chain[..k + 1][..k]).utxos, chain[k].txs, i, j);
  }

  lemma SnapshotHashes(m: UtxoMap, txs: seq<Tx>, i: nat, j: nat)
    requires Snapshot(m, txs) && i < j < |txs|
    ensures TxHash(txs[i]) != TxHash(txs[j])
  {
  }

  // ---------------------------------------------------------------- the record of an output

  /** The record as the ledger makes it, with the ledger below the block. */
  lemma {:induction false} RecordedAs(rules: Rules, g: Block, chain: seq<Block>, k: nat, n: nat, op: Outpoint)
    requires TxHashSound() && ChainOk(rules, g, chain) && Made(chain, k, n, op) && op in Fold(chain).utxos
    ensures Fold(chain).utxos[op] == NewUtxo(chain[k].txs[n], op.index, k, n == 0 && k > 0, LockFor(Below(chain, k), chain[k].txs[n], k))
    decreases |chain|
  {
    hide *;
    var top := |chain| - 1;
    MadeIs(chain, k, n, op);
    BlockEffect(rules, g, chain);
    var m := Below(chain, top);
    BelowIs(chain, top);
    BelowIs(chain, k);
    AfterPrefix(m, chain[top].txs, top);
    if k == top {
      CreatedIs(m, chain[top].txs, top, n, op.index);
      assert op == Outpoint(TxHash(chain[k].txs[n]), op.index);
    } else {
      OldStays(rules, g, chain, k, n, op);
      RecordedAs(rules, g, chain[..top], k, n, op);
      BelowIs(chain[..top], k);
      assert chain[..top][..k] == chain[..k];
    }
  }

  /** The unspent outputs below block k. */
  ghost function Below(chain: seq<Block>, k: nat): UtxoMap
    requires k <= |chain|
  {
    if k == 0 then map[] else Fold(chain[..k]).utxos
  }

  lemma BelowIs(chain: seq<Block>, k: nat)
    requires k <= |chain|
    ensures Below(chain, k) == if k == 0 then map[] else Fold(chain[..k]).utxos
  {
  }

  /** An unspent output of an older block was unspent, under the same record, before the last block. */
  lemma {:induction false} OldStays(rules: Rules, g: Block, chain: seq<Block>, k: nat, n: nat, op: Outpoint)
    requires TxHashSound() && ChainOk(rules, g, chain) && Made(chain, k, n, op) && op in Fold(chain).utxos && k < |chain| - 1
    ensures var top := |chain| - 1;
            && ChainOk(rules, g, chain[..top]) && Made(chain[..top], k, n, op)
            && op in Fold(chain[..top]).utxos && Fold(chain[..top]).utxos[op] == Fold(chain).utxos[op]
  {
    var top := |chain| - 1;
    assert Made(chain[..top], k, n, op);
    hide *;
    BlockEffect(rules, g, chain);
    MadeIs(chain, k, n, op);
    StillThere(rules, g, chain, k, n, op);
    AfterPrefix(Fold(chain[..top]).utxos, chain[top].txs, top);
    UntouchedAt(Fold(chain[..top]).utxos, Fold(chain).utxos, AllSpends(chain[top].txs), op);
  }

  lemma {:induction false} StillThere(rules: Rules, g: Block, chain: seq<Block>, k: nat, n: nat, op: Outpoint)
    requires TxHashSound() && ChainOk(rules, g, chain) && op in Fold(chain).utxos && |chain| > 1
    requires ChainOk(rules, g, chain[..|chain| - 1]) && Made(chain[..|chain| - 1], k, n, op)
    ensures op in Fold(chain[..|chain| - 1]).utxos && op !in AllSpends(chain[|chain| - 1].txs)
  {
    hide *;
    UnspentExactlyWhen(rules, g, chain, op);
    UsedStep(chain, op);
    MadeHere(chain[..|chain| - 1], k, n, op);
    UnspentExactlyWhen(rules, g, chain[..|chain| - 1], op);
  }

  lemma MadeHere(chain: seq<Block>, k: nat, n: nat, op: Outpoint)
    requires Made(chain, k, n, op)
    ensures MadeOn(chain, op)
  {
  }

  lemma UntouchedAt(m: UtxoMap, m': UtxoMap, gone: set<Outpoint>, op: Outpoint)
    requires Untouched(m, m', gone) && op in m && op !in gone
    ensures op in m' && m'[op] == m[op]
  {
  }

  /** Input j of transaction n of block k spends a stake that transaction n' of a block k' made. */
  ghost predicate StakeSpentAt(chain: seq<Block>, k: nat, n: nat, j: nat, k': nat, n': nat) {
    && k < |chain| && n < |chain[k].txs| && j < |chain[k].txs[n].inputs| && k' < k
    && var op := chain[k].txs[n].inputs[j].prevOut;
       op != Outpoint(0, 0) && Made(chain, k', n', op) && OutputAt(chain, k', n', op).script.kind == Stake
  }

  /** Transaction n of block k takes a stake back. */
  ghost predicate Unstakes(chain: seq<Block>, k: nat, n: nat) {
    exists j: nat, k': nat, n': nat :: StakeSpentAt(chain, k, n, j, k', n')
  }

  /** The input of a valid block spends an output that was unspent below it and made in an older block. */
  lemma {:induction false} InputIsOld(rules: Rules, g: Block, chain: seq<Block>, k: nat, n: nat, j: nat, op: Outpoint)
    requires TxHashSound() && ChainOk(rules, g, chain) && Used(chain, k, n, j, op)
    ensures 0 < k && 0 < n && op in Below(chain, k)
    ensures ChainOk(rules, g, chain[..k]) && SpendOk(chain[k].txs[n], Below(chain, k)) && TxMature(Below(chain, k), chain[k].txs[n], k) && k <= MAX_U64
    ensures exists k': nat, n': nat :: k' < k && Made(chain, k', n', op)
  {
    hide TxOk, Fold, BlockOk, InputMature, MintOk, AllTokensOk, AllStakesExact, AllRegistrationsOk, TxHashSound;
    ChainHeights(rules, g, chain, k);
    UsedBy(chain[k].txs[n], op);
    if k > 0 {
      ChainPrefix(rules, g, chain, k);
      assert CanExtend(rules, chain[..k], chain[k]);
    }
    assert n > 0;
    SpendOkInputs(chain[k].txs[n], Below(chain, k));
    UnspentExactlyWhen(rules, g, chain[..k], op);
    var k': nat, n': nat :| Made(chain[..k], k', n', op);
    assert Made(chain, k', n', op);
  }

  /** So what block k reads of an output made in block k' is what was made there. */
  lemma {:induction false} ReadAsMade(rules: Rules, g: Block, chain: seq<Block>, k: nat, k': nat, n': nat, op: Outpoint)
    requires TxHashSound() && ChainOk(rules, g, chain) && 0 < k < |chain| && ChainOk(rules, g, chain[..k])
    requires op in Below(chain, k) && Made(chain, k', n', op)
    ensures k' < k
    ensures Below(chain, k)[op] == NewUtxo(chain[k'].txs[n'], op.index, k', n' == 0 && k' > 0, LockFor(Below(chain, k'), chain[k'].txs[n'], k'))
  {
    hide ChainOk, Fold, TxHashSound, LockFor, NewUtxo;
    UnspentExactlyWhen(rules, g, chain[..k], op);
    var k0: nat, n0: nat :| Made(chain[..k], k0, n0, op);
    assert Made(chain, k0, n0, op);
    MadeOnce(rules, g, chain, k0, n0, k', n', op);
    RecordedAs(rules, g, chain[..k], k', n', op);
    assert chain[..k][..k'] == chain[..k'];
  }

  lemma {:induction false} LockIsUnstaking(rules: Rules, g: Block, chain: seq<Block>, k: nat, n: nat)
    requires TxHashSound() && ChainOk(rules, g, chain) && k < |chain| && n < |chain[k].txs|
    ensures SpendsStake(Below(chain, k), chain[k].txs[n]) <==> Unstakes(chain, k, n)
  {
    hide ChainOk, Fold, TxHashSound, LockFor, SpendOk, TxMature, Below;
    var t, m := chain[k].txs[n], Below(chain, k);
    BelowIs(chain, k);
    if SpendsStake(m, t) {
      var j: nat :| 0 <= j < |t.inputs| && IsStakeSpend(m, t.inputs[j].prevOut);
      var op := t.inputs[j].prevOut;
      assert Used(chain, k, n, j, op);
      InputIsOld(rules, g, chain, k, n, j, op);
      var k': nat, n': nat :| k' < k && Made(chain, k', n', op);
      ReadAsMade(rules, g, chain, k, k', n', op);
      assert StakeSpentAt(chain, k, n, j, k', n');
    }
    if Unstakes(chain, k, n) {
      var j: nat, k': nat, n': nat :| StakeSpentAt(chain, k, n, j, k', n');
      var op := t.inputs[j].prevOut;
      assert Used(chain, k, n, j, op);
      InputIsOld(rules, g, chain, k, n, j, op);
      ReadAsMade(rules, g, chain, k, k', n', op);
      assert IsStakeSpend(m, op);
    }
  }

  /** The record of an unspent output: what its transaction says, the height of its block, the coinbase mark
      exactly for transaction 0 of a block above genesis, and a lock of 20 blocks exactly if its transaction
      takes a stake back. */
  lemma {:induction false} RecordExactly(rules: Rules, g: Block, chain: seq<Block>, k: nat, n: nat, op: Outpoint)
    requires TxHashSound() && ChainOk(rules, g, chain) && Made(chain, k, n, op) && op in Fold(chain).utxos
    ensures var u, o := Fold(chain).utxos[op], OutputAt(chain, k, n, op);
            && u.outpoint == op && u.value == o.value && u.script == o.script && u.token == o.token && u.height == k
            && (u.coinbase <==> k > 0 && n == 0)
            && u.lockedUntil == if Unstakes(chain, k, n) then k + 20 else 0
  {
    hide ChainOk, Fold, TxHashSound, SpendsStake, Below, Unstakes;
    RecordedAs(rules, g, chain, k, n, op);
    LockIsUnstaking(rules, g, chain, k, n);
  }

  // ---------------------------------------------------------------- maturity

  /** What a block at height h may spend of what block k made. */
  ghost predicate Ripe(chain: seq<Block>, k: nat, n: nat, h: nat) {
    && (k > 0 && n == 0 ==> h >= k + 20)
    && (Unstakes(chain, k, n) ==> h >= k + 20)
  }

  lemma {:induction false} MatureIsRipe(rules: Rules, g: Block, chain: seq<Block>, k: nat, n: nat, op: Outpoint, height: Uint64)
    requires TxHashSound() && ChainOk(rules, g, chain) && Made(chain, k, n, op) && op in Fold(chain).utxos && |chain| <= height + 1
    ensures op != Outpoint(0, 0) ==> (InputMature(Fold(chain).utxos, op, height) <==> Ripe(chain, k, n, height))
  {
    hide ChainOk, Fold, TxHashSound, Unstakes;
    RecordExactly(rules, g, chain, k, n, op);
    assert op.IsZero() <==> op == Outpoint(0, 0);
  }

  /** No block of a valid chain spends a coinbase output before 20 blocks have passed, nor what came back
      from a stake. */
  lemma {:induction false} NothingSpentEarly(rules: Rules, g: Block, chain: seq<Block>, k: nat, n: nat, h: nat, i: nat, j: nat, op: Outpoint)
    requires TxHashSound() && ChainOk(rules, g, chain) && Made(chain, k, n, op) && Used(chain, h, i, j, op)
    ensures k < h && (k > 0 && n == 0 ==> h - k >= 20) && (Unstakes(chain, k, n) ==> h >= k + 20)
  {
    hide ChainOk, Fold, TxHashSound, Unstakes, SpendOk, InputMature, LockFor, NewUtxo;
    InputIsOld(rules, g, chain, h, i, j, op);
    ReadAsMade(rules, g, chain, h, k, n, op);
    assert Made(chain[..h], k, n, op);
    UnstakesBelow(chain, h, k, n);
    MatureIsRipe(rules, g, chain[..h], k, n, op, h);
    assert InputMature(Below(chain, h), op, h);
  }

  lemma {:induction false} UnstakesBelow(chain: seq<Block>, h: nat, k: nat, n: nat)
    requires k < h <= |chain|
    ensures Unstakes(chain[..h], k, n) <==> Unstakes(chain, k, n)
  {
    if Unstakes(chain[..h], k, n) {
      var j: nat, k': nat, n': nat :| StakeSpentAt(chain[..h], k, n, j, k', n');
      assert StakeSpentAt(chain, k, n, j, k', n');
    }
    if Unstakes(chain, k, n) {
      var j: nat, k': nat, n': nat :| StakeSpentAt(chain, k, n, j, k', n');
      assert StakeSpentAt(chain[..h], k, n, j, k', n');
    }
  }

  /** Transaction i of the block spends, with input j, what transaction n of block k made. */
  ghost predicate SpendsOld(chain: seq<Block>, b: Block, i: nat, j: nat, k: nat, n: nat) {
    i < |b.txs| && j < |b.txs[i].inputs| && b.txs[i].inputs[j].prevOut != Outpoint(0, 0) && Made(chain, k, n, b.txs[i].inputs[j].prevOut)
  }

  /** And the maturity rule refuses a block that spends what there is for nothing else. */
  lemma {:induction false} MatureExactlyWhen(rules: Rules, g: Block, chain: seq<Block>, b: Block)
    requires TxHashSound() && ChainOk(rules, g, chain) && |chain| <= MAX_U64
    requires forall t :: t in b.txs ==> Spends(t) <= Fold(chain).utxos.Keys
    ensures AllMature(Fold(chain).utxos, b.txs, |chain|) <==> forall i: nat, j: nat, k: nat, n: nat :: SpendsOld(chain, b, i, j, k, n) ==> Ripe(chain, k, n, |chain|)
  {
    hide ChainOk, Fold, TxHashSound, Unstakes, InputMature, Ripe, Spends;
    var m := Fold(chain).utxos;
    forall i: nat, j: nat, k: nat, n: nat | SpendsOld(chain, b, i, j, k, n)
      ensures InputMature(m, b.txs[i].inputs[j].prevOut, |chain|) <==> Ripe(chain, k, n, |chain|)
    {
      UsedBy(b.txs[i], b.txs[i].inputs[j].prevOut);
      MatureIsRipe(rules, g, chain, k, n, b.txs[i].inputs[j].prevOut, |chain|);
    }
    if forall i: nat, j: nat, k: nat, n: nat :: SpendsOld(chain, b, i, j, k, n) ==> Ripe(chain, k, n, |chain|) {
      forall i: nat, j: nat | 0 <= i < |b.txs| && 0 <= j < |b.txs[i].inputs|
        ensures InputMature(m, b.txs[i].inputs[j].prevOut, |chain|)
      {
        var op := b.txs[i].inputs[j].prevOut;
        if op == Outpoint(0, 0) {
          ZeroIsMature(m, op, |chain|);
        } else {
          UsedBy(b.txs[i], op);
          UnspentExactlyWhen(rules, g, chain, op);
          var k: nat, n: nat :| Made(chain, k, n, op);
          assert SpendsOld(chain, b, i, j, k, n);
        }
      }
    }
  }

  lemma ZeroIsMature(m: UtxoMap, op: Outpoint, height: Uint64)
    requires op == Outpoint(0, 0)
    ensures InputMature(m, op, height)
  {
  }

  // ---------------------------------------------------------------- ownership

  /** No outpoint is used twice, within a block or across the chain. */
  lemma {:induction false} UsedOnce(rules: Rules, g: Block, chain: seq<Block>, h: nat, i: nat, j: nat, h': nat, i': nat, j': nat, op: Outpoint)
    requires TxHashSound() && ChainOk(rules, g, chain)
    requires Used(chain, h, i, j, op) && Used(chain, h', i', j', op)
    ensures h == h' && i == i' && j == j'
  {
    hide ChainOk, TxHashSound, Fold, SpendOk, TxMature, TxOk;
    InputIsOld(rules, g, chain, h, i, j, op);
    InputIsOld(rules, g, chain, h', i', j', op);
    if h < h' {
      NotUsedBelow(rules, g, chain, h, i, j, h', op);
    } else if h' < h {
      NotUsedBelow(rules, g, chain, h', i', j', h, op);
    } else {
      UsedBy(chain[h].txs[i], op);
      UsedBy(chain[h].txs[i'], op);
      ApartInBlock(rules, g, chain, h, i, i');
      OneInput(chain[h].txs[i], j, j', Below(chain, h));
    }
  }

  lemma {:induction false} NotUsedBelow(rules: Rules, g: Block, chain: seq<Block>, h: nat, i: nat, j: nat, k: nat, op: Outpoint)
    requires TxHashSound() && Used(chain, h, i, j, op) && h < k <= |chain| && ChainOk(rules, g, chain[..k])
    ensures op !in Below(chain, k)
  {
    hide ChainOk, TxHashSound, Fold;
    UnspentExactlyWhen(rules, g, chain[..k], op);
    assert Used(chain[..k], h, i, j, op);
  }

  lemma {:induction false} ApartInBlock(rules: Rules, g: Block, chain: seq<Block>, h: nat, i: nat, i': nat)
    requires TxHashSound() && ChainOk(rules, g, chain) && 0 < h < |chain| && i < |chain[h].txs| && i' < |chain[h].txs|
    ensures i != i' ==> Spends(chain[h].txs[i]) !! Spends(chain[h].txs[i'])
  {
    hide ChainOk, TxHashSound, TxOk, Spends;
    ChainHeights(rules, g, chain, h);
  }

  lemma OneInput(t: Tx, j: nat, j': nat, m: UtxoMap)
    requires SpendOk(t, m) && j < |t.inputs| && j' < |t.inputs| && t.inputs[j].prevOut == t.inputs[j'].prevOut
    ensures j == j'
  {
    assert DistinctInputs(t.inputs);
  }

  /** Whatever a transaction of a valid chain spends was made in an older block, and is spent by the key it was
      made for: its holder signed the spending transaction. */
  lemma {:induction false} SpentByOwner(rules: Rules, g: Block, chain: seq<Block>, h: nat, i: nat, j: nat, op: Outpoint)
    requires TxHashSound() && ChainOk(rules, g, chain) && Used(chain, h, i, j, op)
    ensures h > 0 && i > 0
    ensures exists k: nat, n: nat :: k < h && Made(chain, k, n, op) && OwnedBy(OutputAt(chain, k, n, op).script, chain[h].txs[i].inputs[j].pubKey)
    ensures var spent := chain[h].txs[i].inputs[j]; |spent.pubKey| > 0 && VerifySignature(TxHash(chain[h].txs[i]), spent.signature, spent.pubKey)
  {
    hide ChainOk, Fold, TxHashSound, TxMature, TxOk, Below, LockFor;
    var t, m := chain[h].txs[i], Below(chain, h);
    InputIsOld(rules, g, chain, h, i, j, op);
    var k: nat, n: nat :| k < h && Made(chain, k, n, op);
    ReadAsMade(rules, g, chain, h, k, n, op);
    assert InputOk(t.inputs[j], m) && SignatureOk(t, t.inputs[j]);
    UnlocksIs(t.inputs[j].pubKey, m[op].script);
  }
}
