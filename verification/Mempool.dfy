/** The pool of pending transactions (internal/mempool): a map of entries, the index of the outpoints
    they spend, admission, eviction and block selection. Fee rates are exact rationals. */
module Mempool {
  import opened Primitives
  import opened Types
  import opened Ledger
  import opened Weights
  import opened TxRules
  import opened Tokens
  import opened StateRules
  import opened Sorting

  datatype Entry = Entry(tx: Tx, hash: Hash, fee: Uint64, feeRate: real)

  /** The admission settings; a maturity, mint fee, stake amount or fee rate of 0 switches that check off. */
  datatype Policy = Policy(minFeeRate: Uint64, maturity: Uint64, checkTokens: bool, allowMinting: bool, mintFee: Uint64, stakeAmount: Uint64)

  datatype AddError = AlreadyExists | Conflict | NotMature | Invalid | MintingDisabled | BadTokens | FeeTooLow | BadStake | PoolFull

  function FeeRate(fee: nat, size: nat): real {
    if size > 0 then fee as real / size as real else 0.0
  }

  /** `minFeeRate * size` on uint64. */
  function RequiredFee(rate: Uint64, size: nat): Uint64 {
    (rate * size) % TWO_64
  }

  predicate OutputMature(m: UtxoMap, op: Outpoint, height: Uint64, maturity: Uint64) {
    op.IsZero() || op !in m ||
    (&& !(m[op].coinbase && Sub64(height, m[op].height) < maturity)
     && !(m[op].lockedUntil > 0 && height < m[op].lockedUntil))
  }

  predicate InputsMature(m: UtxoMap, t: Tx, height: Uint64, maturity: Uint64) {
    forall i :: 0 <= i < |t.inputs| ==> OutputMature(m, t.inputs[i].prevOut, height, maturity)
  }

  predicate StakesExact(t: Tx, amount: Uint64) {
    forall i :: 0 <= i < |t.outputs| && t.outputs[i].script.kind == Stake ==> t.outputs[i].value == amount
  }

  /** Everything Add asks of a transaction apart from the pool's own contents. */
  ghost predicate Acceptable(p: Policy, m: UtxoMap, height: Uint64, t: Tx) {
    && (p.maturity > 0 ==> InputsMature(m, t, height, p.maturity))
    && SpendOk(t, m)
    && (HasMintOutput(t) ==> p.allowMinting && (p.mintFee > 0 ==> TxFee(m, t) >= p.mintFee))
    && (p.checkTokens ==> TokensOk(t, m))
    && (p.stakeAmount > 0 ==> StakesExact(t, p.stakeAmount))
    && (p.minFeeRate > 0 ==> TxFee(m, t) >= RequiredFee(p.minFeeRate, SigningSize(t)))
  }

  /** What a refusal says is true of the transaction. */
  ghost predicate Grounds(error: AddError, p: Policy, txs: Entries, spends: map<Outpoint, Hash>, maxSize: nat, m: UtxoMap, height: Uint64, t: Tx) {
    match error
    case AlreadyExists => TxHash(t) in txs
    case Conflict => !(Spends(t) !! spends.Keys)
    case NotMature => p.maturity > 0 && !InputsMature(m, t, height, p.maturity)
    case Invalid => !SpendOk(t, m)
    case MintingDisabled => HasMintOutput(t) && !p.allowMinting
    case BadTokens => p.checkTokens && !TokensOk(t, m)
    case FeeTooLow => TxFee(m, t) < (if HasMintOutput(t) then p.mintFee else 0) || (p.minFeeRate > 0 && TxFee(m, t) < RequiredFee(p.minFeeRate, SigningSize(t)))
    case BadStake => p.stakeAmount > 0 && !StakesExact(t, p.stakeAmount)
    case PoolFull => |txs| >= maxSize && forall k :: k in txs ==> txs[k].feeRate >= FeeRate(TxFee(m, t), SigningSize(t))
  }

  type Entries = map<Hash, Entry>

  predicate RateAscending(a: Entry, b: Entry) { a.feeRate <= b.feeRate }
  predicate RateDescending(a: Entry, b: Entry) { a.feeRate >= b.feeRate }

  lemma RatesOrder()
    ensures TotalPreorder(RateAscending) && TotalPreorder(RateDescending)
  {
  }

  ghost predicate KeyedByHash(txs: Entries) {
    forall h :: h in txs ==> txs[h].hash == h && TxHash(txs[h].tx) == h
  }

  predicate IndexedAs(spends: map<Outpoint, Hash>, op: Outpoint, h: Hash) {
    op in spends && spends[op] == h
  }

  predicate PooledSpend(txs: Entries, h: Hash, op: Outpoint) {
    h in txs && op in Spends(txs[h].tx)
  }

  /** The conflict index is exactly the map from what pooled transactions spend to them. */
  ghost predicate SpendsExact(txs: Entries, spends: map<Outpoint, Hash>) {
    forall op, h :: IndexedAs(spends, op, h) <==> PooledSpend(txs, h, op)
  }

  /** Therefore no two pooled transactions spend the same output. */
  lemma PooledDisjoint(txs: Entries, spends: map<Outpoint, Hash>, a: Hash, b: Hash)
    requires SpendsExact(txs, spends) && a in txs && b in txs && a != b
    ensures Spends(txs[a].tx) !! Spends(txs[b].tx)
  {
    forall op | op in Spends(txs[a].tx)
      ensures op !in Spends(txs[b].tx)
    {
      assert PooledSpend(txs, a, op) && IndexedAs(spends, op, a);
      assert PooledSpend(txs, b, op) <==> IndexedAs(spends, op, b);
    }
  }

  lemma {:induction false} RemovalKeepsIndex(txs: Entries, spends: map<Outpoint, Hash>, h: Hash)
    requires SpendsExact(txs, spends) && h in txs
    ensures SpendsExact(txs - {h}, spends - Spends(txs[h].tx))
  {
    var txs', spends' := txs - {h}, spends - Spends(txs[h].tx);
    forall op, k
      ensures IndexedAs(spends', op, k) <==> PooledSpend(txs', k, op)
    {
      assert IndexedAs(spends, op, k) <==> PooledSpend(txs, k, op);
      assert IndexedAs(spends, op, h) <==> PooledSpend(txs, h, op);
    }
  }

  function WithSpends(spends: map<Outpoint, Hash>, ops: set<Outpoint>, h: Hash): map<Outpoint, Hash> {
    spends + map op | op in ops :: h
  }

  lemma {:induction false} InsertionKeepsIndex(txs: Entries, spends: map<Outpoint, Hash>, h: Hash, e: Entry)
    requires SpendsExact(txs, spends) && h !in txs && Spends(e.tx) !! spends.Keys
    ensures SpendsExact(txs[h := e], WithSpends(spends, Spends(e.tx), h))
  {
    var txs', spends' := txs[h := e], WithSpends(spends, Spends(e.tx), h);
    forall op, k
      ensures IndexedAs(spends', op, k) <==> PooledSpend(txs', k, op)
    {
      assert IndexedAs(spends, op, k) <==> PooledSpend(txs, k, op);
    }
  }

  ghost predicate PooledList(r: seq<Tx>, txs: Entries) {
    forall i :: 0 <= i < |r| ==> TxHash(r[i]) in txs && txs[TxHash(r[i])].tx == r[i]
  }

  ghost predicate ConflictFree(r: seq<Tx>) {
    forall i, j :: 0 <= i < j < |r| ==> TxHash(r[i]) != TxHash(r[j]) && Spends(r[i]) !! Spends(r[j])
  }

  ghost predicate HighestFirst(r: seq<Tx>, txs: Entries)
    requires PooledList(r, txs)
  {
    forall i, j :: 0 <= i < j < |r| ==> txs[TxHash(r[i])].feeRate >= txs[TxHash(r[j])].feeRate
  }

  predicate Selected(r: seq<Tx>, h: Hash) {
    exists i :: 0 <= i < |r| && TxHash(r[i]) == h
  }

  ghost predicate NothingBetterLeft(r: seq<Tx>, txs: Entries)
    requires PooledList(r, txs)
  {
    forall i, h :: 0 <= i < |r| && h in txs && !Selected(r, h) ==> txs[h].feeRate <= txs[TxHash(r[i])].feeRate
  }

  /** The first n entries by descending rate. */
  lemma {:induction false} TopIsBest(sorted: seq<Entry>, txs: Entries, spends: map<Outpoint, Hash>, n: nat, r: seq<Tx>)
    requires KeyedByHash(txs) && SpendsExact(txs, spends)
    requires Lists(sorted, txs) && SortedBy(RateDescending, sorted) && n == |r| <= |sorted|
    requires forall i :: 0 <= i < n ==> r[i] == sorted[i].tx
    ensures PooledList(r, txs) && ConflictFree(r) && HighestFirst(r, txs) && NothingBetterLeft(r, txs)
  {
    hide SpendsExact, Spends, KeyedByHash, Lists, SortedBy;
    forall i | 0 <= i < n
      ensures TxHash(r[i]) == sorted[i].hash && sorted[i].hash in txs && txs[sorted[i].hash] == sorted[i]
    {
      ListedEntry(sorted, txs, i);
    }
    forall i, j | 0 <= i < j < |r|
      ensures TxHash(r[i]) != TxHash(r[j]) && Spends(r[i]) !! Spends(r[j])
      ensures sorted[i].feeRate >= sorted[j].feeRate
    {
      ListedPair(sorted, txs, i, j);
      PooledDisjoint(txs, spends, sorted[i].hash, sorted[j].hash);
    }
    forall i, h | 0 <= i < |r| && h in txs && !Selected(r, h)
      ensures txs[h].feeRate <= sorted[i].feeRate
    {
      LeftOutIsLater(sorted, txs, r, i, h);
    }
  }

  lemma ListedEntry(sorted: seq<Entry>, txs: Entries, i: nat)
    requires KeyedByHash(txs) && Lists(sorted, txs) && i < |sorted|
    ensures sorted[i].hash in txs && txs[sorted[i].hash] == sorted[i] && TxHash(sorted[i].tx) == sorted[i].hash
  {
  }

  lemma ListedPair(sorted: seq<Entry>, txs: Entries, i: nat, j: nat)
    requires Lists(sorted, txs) && SortedBy(RateDescending, sorted) && i < j < |sorted|
    ensures sorted[i].hash != sorted[j].hash && sorted[i].feeRate >= sorted[j].feeRate
  {
    assert RateDescending(sorted[i], sorted[j]);
  }

  lemma LeftOutIsLater(sorted: seq<Entry>, txs: Entries, r: seq<Tx>, i: nat, h: Hash)
    requires KeyedByHash(txs) && Lists(sorted, txs) && SortedBy(RateDescending, sorted) && i < |r| <= |sorted|
    requires forall j :: 0 <= j < |r| ==> TxHash(r[j]) == sorted[j].hash
    requires h in txs && !Selected(r, h)
    ensures txs[h].feeRate <= sorted[i].feeRate
  {
    assert txs[h] in sorted;
    var k :| 0 <= k < |sorted| && sorted[k] == txs[h];
    assert k >= |r|;
    assert RateDescending(sorted[i], sorted[k]);
  }

  class Pool {
    var txs: Entries
    var spends: map<Outpoint, Hash>
    const maxSize: nat
    var policy: Policy

    ghost predicate Coherent()
      reads this
    {
      KeyedByHash(txs) && SpendsExact(txs, spends)
    }

    ghost predicate Valid()
      reads this
    {
      Coherent() && 0 < maxSize && |txs| <= maxSize
    }

    /** New: a size of zero or less means 5000. */
    constructor (maxSize: int, policy: Policy)
      ensures Valid() && txs == map[] && this.policy == policy
      ensures this.maxSize == if maxSize <= 0 then 5000 else maxSize
    {
      txs, spends := map[], map[];
      this.maxSize := if maxSize <= 0 then 5000 else maxSize;
      this.policy := policy;
    }

    /** removeLocked, and Remove. */
    method Remove(h: Hash)
      requires Coherent()
      modifies this`txs, this`spends
      ensures Coherent() && txs == old(txs) - {h}
      ensures old(Valid()) ==> Valid()
    {
      if h !in txs {
        assert txs == txs - {h};
        return;
      }
      var e := txs[h];
      RemovalKeepsIndex(txs, spends, h);
      for i := 0 to |e.tx.inputs|
        invariant txs == old(txs) && spends == old(spends) - SpendsOf(e.tx.inputs[..i])
      {
        var op := e.tx.inputs[i].prevOut;
        SpendsOfGrows(e.tx.inputs, i);
        if !op.IsZero() {
          spends := spends - {op};
        }
      }
      assert e.tx.inputs[..|e.tx.inputs|] == e.tx.inputs;
      txs := txs - {h};
      SmallerMap(old(txs), h);
    }

    /** RemoveConfirmed. */
    method RemoveConfirmed(confirmed: seq<Tx>)
      requires Coherent()
      modifies this`txs, this`spends
      ensures Coherent() && txs == old(txs) - Elements(TxHashes(confirmed))
      ensures old(Valid()) ==> Valid()
    {
      hide *;
      var hashes := TxHashes(confirmed);
      NothingWithout(txs, hashes);
      for i := 0 to |hashes|
        invariant Coherent() && txs == old(txs) - Elements(hashes[..i])
        invariant old(Valid()) ==> Valid()
      {
        Remove(hashes[i]);
        OneMoreWithout(old(txs), hashes, i);
      }
      assert hashes[..|hashes|] == hashes;
    }

    /** The conflict check of Add. */
    method HasConflict(t: Tx) returns (r: bool)
      ensures r <==> !(Spends(t) !! spends.Keys)
    {
      for i := 0 to |t.inputs|
        invariant SpendsOf(t.inputs[..i]) !! spends.Keys
      {
        var op := t.inputs[i].prevOut;
        SpendsOfGrows(t.inputs, i);
        if op.IsZero() {
          continue;
        }
        if op in spends {
          assert op in Spends(t);
          return true;
        }
      }
      assert t.inputs[..|t.inputs|] == t.inputs;
      return false;
    }

    /** The checks of Add, in their order, up to the fee. */
    method Admit(t: Tx, m: UtxoMap, height: Uint64) returns (r: Result<Uint64, AddError>)
      ensures r.Success? <==> Spends(t) !! spends.Keys && TxHash(t) !in txs && Acceptable(policy, m, height, t)
      ensures r.Success? ==> r.value == TxFee(m, t) == InSum(m, t.inputs, ValueOf) - OutSum(t, ValueOf)
      ensures r.Failure? ==> Grounds(r.error, policy, txs, spends, maxSize, m, height, t)
    {
      hide SpendOk, TokensOk, InSum, OutSum;
      if TxHash(t) in txs {
        return Failure(AlreadyExists);
      }
      var conflict := HasConflict(t);
      if conflict {
        return Failure(Conflict);
      }
      if policy.maturity > 0 && !InputsMature(m, t, height, policy.maturity) {
        return Failure(NotMature);
      }
      var fee := ValidateWithUtxos(t, m);
      if fee.None? {
        return Failure(Invalid);
      }
      assert TxFee(m, t) == fee.value;
      var hasMint := HasMintOutput(t);
      if hasMint && !policy.allowMinting {
        return Failure(MintingDisabled);
      }
      if policy.checkTokens {
        var ok := ValidateTokens(t, m);
        if !ok {
          return Failure(BadTokens);
        }
      }
      if policy.mintFee > 0 && fee.value < policy.mintFee && hasMint {
        return Failure(FeeTooLow);
      }
      if policy.stakeAmount > 0 && !StakesExact(t, policy.stakeAmount) {
        return Failure(BadStake);
      }
      if policy.minFeeRate > 0 && fee.value < RequiredFee(policy.minFeeRate, SigningSize(t)) {
        return Failure(FeeTooLow);
      }
      return Success(fee.value);
    }

    /** findLowestFeeRate. */
    method FindLowest() returns (h: Hash)
      requires |txs| > 0
      ensures h in txs && forall k :: k in txs ==> txs[h].feeRate <= txs[k].feeRate
    {
      var pending := txs.Keys;
      NotEmpty(txs);
      h :| h in pending;
      pending := pending - {h};
      while pending != {}
        invariant pending <= txs.Keys && h in txs && h !in pending
        invariant forall k :: k in txs && k !in pending ==> txs[h].feeRate <= txs[k].feeRate
        decreases |pending|
      {
        var k :| k in pending;
        pending := pending - {k};
        if txs[k].feeRate < txs[h].feeRate {
          h := k;
        }
      }
    }

    /** The entry of a transaction that pays `fee`. */
    function NewEntry(t: Tx, fee: Uint64): Entry {
      Entry(t, TxHash(t), fee, FeeRate(fee, SigningSize(t)))
    }

    /** Add: an admissible transaction enters a pool with room, or takes the place of one that pays a
        strictly lower rate and the lowest of all. */
    method Add(t: Tx, m: UtxoMap, height: Uint64) returns (r: Result<Uint64, AddError>)
      requires Valid()
      modifies this`txs, this`spends
      ensures Valid()
      ensures r.Failure? ==> txs == old(txs) && spends == old(spends) && Grounds(r.error, policy, txs, spends, maxSize, m, height, t)
      ensures r.Success? <==>
                && Spends(t) !! old(spends.Keys) && TxHash(t) !in old(txs) && Acceptable(policy, m, height, t)
                && (|old(txs)| < maxSize || exists k :: k in old(txs) && old(txs)[k].feeRate < FeeRate(TxFee(m, t), SigningSize(t)))
      ensures r.Success? ==> r.value == TxFee(m, t) && TxHash(t) in txs && txs[TxHash(t)] == NewEntry(t, r.value)
      ensures r.Success? && |old(txs)| < maxSize ==> txs == old(txs)[TxHash(t) := NewEntry(t, r.value)]
      ensures r.Success? && |old(txs)| >= maxSize ==>
                exists low :: low in old(txs) && txs == (old(txs) - {low})[TxHash(t) := NewEntry(t, r.value)]
                              && old(txs)[low].feeRate < FeeRate(r.value, SigningSize(t))
                              && forall k :: k in old(txs) ==> old(txs)[low].feeRate <= old(txs)[k].feeRate
    {
      hide Acceptable, KeyedByHash, SpendsExact, SpendOk, TokensOk, TxFee;
      r := Admit(t, m, height);
      if r.Failure? {
        return;
      }
      var fee := r.value;
      var e := NewEntry(t, fee);
      if |txs| >= maxSize {
        var low := FindLowest();
        if e.feeRate <= txs[low].feeRate {
          return Failure(PoolFull);
        }
        SmallerMap(txs, low);
        Remove(low);
        StillApart(old(txs), old(spends), txs, spends, t);
      }
      Insert(e);
    }

    /** The end of Add: the entry and its spends go in. */
    method Insert(e: Entry)
      requires Coherent() && 0 < maxSize && |txs| < maxSize
      requires e.hash == TxHash(e.tx) && e.hash !in txs && Spends(e.tx) !! spends.Keys
      modifies this`txs, this`spends
      ensures Valid() && txs == old(txs)[e.hash := e]
    {
      hide SpendsExact, WithSpends, Spends;
      InsertionKeepsIndex(txs, spends, e.hash, e);
      LargerMap(txs, e.hash, e);
      txs := txs[e.hash := e];
      AllSpendsOf(e.tx, old(spends), e.hash);
      for i := 0 to |e.tx.inputs|
        invariant txs == old(txs)[e.hash := e] && spends == WithSpends(old(spends), SpendsOf(e.tx.inputs[..i]), e.hash)
      {
        var op := e.tx.inputs[i].prevOut;
        WithSpendsStep(old(spends), e.tx.inputs, i, e.hash);
        if !op.IsZero() {
          spends := spends[op := e.hash];
        }
      }
    }

    /** The entries, in the arbitrary order of a map iteration. */
    method Collect() returns (r: seq<Entry>)
      requires KeyedByHash(txs)
      ensures Lists(r, txs)
    {
      r := [];
      var pending := txs.Keys;
      while pending != {}
        invariant pending <= txs.Keys && |r| + |pending| == |txs|
        invariant forall i :: 0 <= i < |r| ==> r[i].hash in txs && r[i].hash !in pending && txs[r[i].hash] == r[i]
        invariant forall h :: h in txs && h !in pending ==> txs[h] in r
        invariant forall i, j :: 0 <= i < j < |r| ==> r[i].hash != r[j].hash
        decreases |pending|
      {
        var h :| h in pending;
        pending := pending - {h};
        r := r + [txs[h]];
      }
    }

    /** SelectForBlock: as many as fit, conflict-free, and none left out pays a higher rate. */
    method SelectForBlock(limit: nat) returns (r: seq<Tx>)
      requires Coherent()
      ensures |r| == Min(limit, |txs|)
      ensures PooledList(r, txs) && ConflictFree(r) && HighestFirst(r, txs) && NothingBetterLeft(r, txs)
    {
      hide PooledList, ConflictFree, HighestFirst, NothingBetterLeft;
      var entries := Collect();
      RatesOrder();
      var sorted := SortSlice(entries, RateDescending);
      ListsPermutes(entries, sorted, txs);
      var n := if limit > |sorted| then |sorted| else limit;
      r := seq(n, i requires 0 <= i < n => sorted[i].tx);
      TopIsBest(sorted, txs, spends, n, r);
    }

    /** Evict: the lowest rates go until the pool fits; nothing that stays pays less than what went. */
    method Evict() returns (evicted: nat)
      requires Coherent()
      modifies this`txs, this`spends
      ensures Coherent() && |txs| == Min(|old(txs)|, maxSize) && evicted == |old(txs)| - |txs|
      ensures forall h :: h in txs ==> h in old(txs) && txs[h] == old(txs)[h]
      ensures forall h, k :: h in txs && k in old(txs) && k !in txs ==> old(txs)[k].feeRate <= txs[h].feeRate
      ensures |old(txs)| <= maxSize ==> txs == old(txs) && spends == old(spends)
    {
      if |txs| <= maxSize {
        return 0;
      }
      var entries := Collect();
      RatesOrder();
      var sorted := SortSlice(entries, RateAscending);
      ListsPermutes(entries, sorted, txs);
      ghost var all := txs;
      evicted := 0;
      KeptAll(sorted, all);
      while |txs| > maxSize && evicted < |sorted|
        invariant Coherent() && evicted <= |sorted| == |all| && |txs| == |all| - evicted && |txs| >= maxSize
        invariant KeptAfter(sorted, all, txs, evicted)
      {
        EvictStep(sorted, all, txs, evicted);
        SmallerMap(txs, sorted[evicted].hash);
        Remove(sorted[evicted].hash);
        evicted := evicted + 1;
      }
      EvictedPayLess(sorted, all, txs, evicted);
    }
  }

  // ---------------------------------------------------------------- lemmas on maps and lists of entries

  lemma SmallerMap(txs: Entries, h: Hash)
    requires h in txs
    ensures |txs - {h}| == |txs| - 1
  {
    assert (txs - {h}).Keys == txs.Keys - {h};
    assert |(txs - {h}).Keys| == |txs - {h}| && |txs.Keys| == |txs|;
  }

  lemma LargerMap(txs: Entries, h: Hash, e: Entry)
    requires h !in txs
    ensures |txs[h := e]| == |txs| + 1
  {
    assert txs[h := e].Keys == txs.Keys + {h};
    assert |txs[h := e].Keys| == |txs[h := e]| && |txs.Keys| == |txs|;
  }

  lemma NotEmpty(txs: Entries)
    requires |txs| > 0
    ensures txs.Keys != {}
  {
    assert |txs.Keys| == |txs|;
  }

  lemma StillApart(before: Entries, spendsBefore: map<Outpoint, Hash>, after: Entries, spends: map<Outpoint, Hash>, t: Tx)
    requires SpendsExact(before, spendsBefore) && SpendsExact(after, spends) && Spends(t) !! spendsBefore.Keys
    requires forall h :: h in after ==> h in before && after[h] == before[h]
    ensures Spends(t) !! spends.Keys
  {
    forall op | op in spends
      ensures op in spendsBefore
    {
      assert IndexedAs(spends, op, spends[op]);
      assert PooledSpend(after, spends[op], op);
      assert PooledSpend(before, spends[op], op);
      assert IndexedAs(spendsBefore, op, spends[op]);
    }
  }

  /** `r` lists every entry of the pool once. */
  ghost predicate Lists(r: seq<Entry>, txs: Entries) {
    && |r| == |txs|
    && (forall i :: 0 <= i < |r| ==> r[i].hash in txs && txs[r[i].hash] == r[i])
    && (forall h :: h in txs ==> txs[h] in r)
    && (forall i, j :: 0 <= i < j < |r| ==> r[i].hash != r[j].hash)
  }

  lemma {:induction false} ListsPermutes(a: seq<Entry>, b: seq<Entry>, txs: Entries)
    requires Lists(a, txs) && multiset(a) == multiset(b)
    ensures Lists(b, txs)
  {
    MultisetElements(a, b);
    assert forall e :: e in a <==> e in Elements(a);
    assert forall e :: e in b <==> e in Elements(b);
    DistinctPermutes(a, b);
    forall i | 0 <= i < |b|
      ensures b[i].hash in txs && txs[b[i].hash] == b[i]
    {
      assert b[i] in a;
    }
  }

  /** Exactly the entries from place n on are left. */
  ghost predicate KeptAfter(sorted: seq<Entry>, all: Entries, txs: Entries, n: nat)
    requires n <= |sorted|
  {
    && (forall h :: h in txs ==> h in all && txs[h] == all[h])
    && (forall i :: 0 <= i < |sorted| ==> (sorted[i].hash in txs <==> n <= i))
  }

  lemma KeptAll(sorted: seq<Entry>, all: Entries)
    requires Lists(sorted, all)
    ensures KeptAfter(sorted, all, all, 0)
  {
  }

  lemma {:induction false} EvictStep(sorted: seq<Entry>, all: Entries, txs: Entries, n: nat)
    requires Lists(sorted, all) && n < |sorted| && KeptAfter(sorted, all, txs, n)
    ensures sorted[n].hash in txs && KeptAfter(sorted, all, txs - {sorted[n].hash}, n + 1)
  {
    var txs' := txs - {sorted[n].hash};
    forall i | 0 <= i < |sorted|
      ensures sorted[i].hash in txs' <==> n + 1 <= i
    {
      assert i < n ==> sorted[i].hash != sorted[n].hash;
    }
  }

  lemma {:induction false} EvictedPayLess(sorted: seq<Entry>, all: Entries, txs: Entries, n: nat)
    requires Lists(sorted, all) && KeyedByHash(all) && SortedBy(RateAscending, sorted) && n <= |sorted| && KeptAfter(sorted, all, txs, n)
    ensures forall h, k :: h in txs && k in all && k !in txs ==> all[k].feeRate <= txs[h].feeRate
  {
    forall h, k | h in txs && k in all && k !in txs
      ensures all[k].feeRate <= txs[h].feeRate
    {
      assert all[h] in sorted && all[k] in sorted;
      var i :| 0 <= i < |sorted| && sorted[i] == all[h];
      var j :| 0 <= j < |sorted| && sorted[j] == all[k];
      KeyedLists(sorted, all, i, h);
      KeyedLists(sorted, all, j, k);
      assert RateAscending(sorted[j], sorted[i]);
    }
  }

  lemma KeyedLists(r: seq<Entry>, txs: Entries, i: nat, h: Hash)
    requires Lists(r, txs) && KeyedByHash(txs) && i < |r| && h in txs && r[i] == txs[h]
    ensures r[i].hash == h
  {
  }

  lemma NothingWithout(txs: Entries, hashes: seq<Hash>)
    ensures txs == txs - Elements(hashes[..0])
  {
  }

  lemma OneMoreWithout(txs: Entries, hashes: seq<Hash>, i: nat)
    requires i < |hashes|
    ensures (txs - Elements(hashes[..i])) - {hashes[i]} == txs - Elements(hashes[..i + 1])
  {
    assert hashes[..i + 1] == hashes[..i] + [hashes[i]];
  }

  lemma AllSpendsOf(t: Tx, spends: map<Outpoint, Hash>, h: Hash)
    ensures t.inputs[..|t.inputs|] == t.inputs && Spends(t) == SpendsOf(t.inputs)
    ensures WithSpends(spends, SpendsOf(t.inputs[..0]), h) == spends
  {
  }

  lemma WithSpendsStep(spends: map<Outpoint, Hash>, ins: seq<Input>, i: nat, h: Hash)
    requires i < |ins|
    ensures var op := ins[i].prevOut; var before := WithSpends(spends, SpendsOf(ins[..i]), h);
            WithSpends(spends, SpendsOf(ins[..i + 1]), h) == if op.IsZero() then before else before[op := h]
  {
    SpendsOfGrows(ins, i);
  }

  // ---------------------------------------------------------------- the minimum fee rate

  lemma RatioAtLeast(fee: nat, size: nat, rate: nat)
    requires size > 0 && fee >= rate * size
    ensures fee as real / size as real >= rate as real
  {
    assert fee as real >= (rate * size) as real == rate as real * size as real;
  }

  lemma RatioBelow(fee: nat, size: nat, rate: nat)
    requires size > 0 && fee < rate * size
    ensures fee as real / size as real < rate as real
  {
    assert fee as real < (rate * size) as real == rate as real * size as real;
  }

  /** Fee rates compare as fees per byte do, crosswise. */
  lemma {:induction false} RatesCompare(fee: nat, size: nat, fee': nat, size': nat)
    requires size > 0 && size' > 0
    ensures FeeRate(fee, size) <= FeeRate(fee', size') <==> fee * size' <= fee' * size
  {
    var a, b, s, s' := fee as real, fee' as real, size as real, size' as real;
    assert a / s * s == a && b / s' * s' == b;
    Crosswise(a / s, b / s', s, s');
    assert (fee * size') as real == a * s' && (fee' * size) as real == b * s;
  }

  lemma Crosswise(x: real, y: real, s: real, s': real)
    requires s > 0.0 && s' > 0.0
    ensures x <= y <==> (x * s) * s' <= (y * s') * s
  {
    assert (x * s) * s' == x * (s * s') && (y * s') * s == y * (s * s');
    assert s * s' > 0.0;
  }

  /** The demanded fee guarantees the minimum rate exactly when rate times size fits in uint64. */
  lemma {:induction false} MinimumExactlyWhen(rate: Uint64, size: nat)
    requires size > 0
    ensures (forall fee: Uint64 :: fee >= RequiredFee(rate, size) ==> FeeRate(fee, size) >= rate as real) <==> rate * size <= MAX_U64
  {
    if rate * size <= MAX_U64 {
      forall fee: Uint64 | fee >= RequiredFee(rate, size)
        ensures FeeRate(fee, size) >= rate as real
      {
        RatioAtLeast(fee, size, rate);
      }
    } else {
      var fee: Uint64 := RequiredFee(rate, size);
      RatioBelow(fee, size, rate);
      assert FeeRate(fee, size) < rate as real;
    }
  }

  /** What the pool admits pays at least the minimum rate exactly when that product fits; when it does
      not, everything admitted pays less. */
  lemma {:induction false} MinimumRateHoldsExactlyWhen(p: Policy, m: UtxoMap, height: Uint64, t: Tx)
    requires Acceptable(p, m, height, t) && p.minFeeRate > 0 && SigningSize(t) > 0
    ensures FeeRate(TxFee(m, t), SigningSize(t)) >= p.minFeeRate as real <==> p.minFeeRate * SigningSize(t) <= MAX_U64
  {
    FeeFits(m, t);
    hide SpendOk, TokensOk, InSum, OutSum;
    if p.minFeeRate * SigningSize(t) <= MAX_U64 {
      RatioAtLeast(TxFee(m, t), SigningSize(t), p.minFeeRate);
    } else {
      RatioBelow(TxFee(m, t), SigningSize(t), p.minFeeRate);
    }
  }

  lemma FeeFits(m: UtxoMap, t: Tx)
    requires SpendOk(t, m)
    ensures TxFee(m, t) <= MAX_U64
  {
  }

  /** And such transactions are admitted: one that every other rule accepts needs only the wrapped fee. */
  lemma {:induction false} UnderpaidIsAcceptable(p: Policy, m: UtxoMap, height: Uint64, t: Tx)
    requires Acceptable(p.(minFeeRate := 0), m, height, t) && SigningSize(t) > 0
    requires p.minFeeRate * SigningSize(t) > MAX_U64 && TxFee(m, t) >= RequiredFee(p.minFeeRate, SigningSize(t))
    ensures Acceptable(p, m, height, t) && FeeRate(TxFee(m, t), SigningSize(t)) < p.minFeeRate as real
  {
    hide SpendOk, TokensOk, InSum, OutSum, FeeRate;
    MinimumRateHoldsExactlyWhen(p, m, height, t);
  }

  // ---------------------------------------------------------------- any interleaving

  datatype Op = AddTx(t: Tx, utxos: UtxoMap, height: Uint64) | RemoveTx(h: Hash) | Confirm(txs: seq<Tx>) | EvictNow

  /** After any operations in any order the index is exact, pooled transactions are pairwise
      input-disjoint and the pool is within its size. */
  method RunAll(maxSize: int, policy: Policy, ops: seq<Op>) returns (p: Pool)
    ensures fresh(p) && p.Valid()
    ensures forall a, b :: a in p.txs && b in p.txs && a != b ==> Spends(p.txs[a].tx) !! Spends(p.txs[b].tx)
  {
    p := new Pool(maxSize, policy);
    for i := 0 to |ops|
      invariant fresh(p) && p.Valid()
    {
      hide KeyedByHash, SpendsExact;
      match ops[i] {
        case AddTx(t, utxos, height) => var _ := p.Add(t, utxos, height);
        case RemoveTx(h) => p.Remove(h);
        case Confirm(txs) => p.RemoveConfirmed(txs);
        case EvictNow => var _ := p.Evict();
      }
    }
    forall a, b | a in p.txs && b in p.txs && a != b
      ensures Spends(p.txs[a].tx) !! Spends(p.txs[b].tx)
    {
      PooledDisjoint(p.txs, p.spends, a, b);
    }
  }
}
