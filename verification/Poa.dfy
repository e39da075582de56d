/** The proof-of-authority engine (internal/consensus/poa.go): the validator set, slot election,
    header verification, the signing window and suspensions. */
module Poa {
  import opened Primitives
  import opened Types
  import opened Arithmetic
  import opened Weights
  import opened Storage
  import opened UtxoStore
  import opened Sorting

  const DIFF_IN_TURN: Uint64 := 2
  const DIFF_NO_TURN: Uint64 := 1
  const SUSPENSION_WINDOW: nat := 200
  const MIN_ACTIVE_VALIDATORS: nat := 1

  /** bytes.Compare(a, b) <= 0. */
  predicate LexLe(a: Bytes, b: Bytes) {
    if |a| == 0 then true
    else if |b| == 0 then false
    else if a[0] != b[0] then a[0] < b[0]
    else LexLe(a[1..], b[1..])
  }

  lemma {:induction false} LexTotal(a: Bytes, b: Bytes)
    ensures LexLe(a, b) || LexLe(b, a)
    ensures LexLe(a, b) && LexLe(b, a) ==> a == b
  {
    if |a| > 0 && |b| > 0 && a[0] == b[0] {
      LexTotal(a[1..], b[1..]);
      assert a == [a[0]] + a[1..] && b == [b[0]] + b[1..];
    }
  }

  lemma {:induction false} LexTransitive(a: Bytes, b: Bytes, c: Bytes)
    requires LexLe(a, b) && LexLe(b, c)
    ensures LexLe(a, c)
  {
    if |a| > 0 && |b| > 0 && |c| > 0 && a[0] == b[0] == c[0] {
      LexTransitive(a[1..], b[1..], c[1..]);
    }
  }

  /** The order of bytes.Compare: the first difference decides, and a prefix comes first. */
  lemma {:induction false} LexFirstDifference(a: Bytes, b: Bytes, i: nat)
    requires i <= |a| && i <= |b| && a[..i] == b[..i]
    ensures i < |a| && i < |b| && a[i] < b[i] ==> LexLe(a, b) && !LexLe(b, a)
    ensures i == |a| ==> LexLe(a, b) && (i < |b| ==> !LexLe(b, a))
    decreases i
  {
    if i > 0 {
      assert a[0] == a[..i][0] == b[..i][0] == b[0];
      assert a[1..][..i - 1] == a[..i][1..] && b[1..][..i - 1] == b[..i][1..];
      LexFirstDifference(a[1..], b[1..], i - 1);
    }
  }

  lemma LexIsOrder()
    ensures TotalPreorder(LexLe)
    ensures Antisymmetric(LexLe)
  {
    forall a, b
      ensures LexLe(a, b) || LexLe(b, a)
      ensures LexLe(a, b) && LexLe(b, a) ==> a == b
    {
      LexTotal(a, b);
    }
    forall a, b, c | LexLe(a, b) && LexLe(b, c)
      ensures LexLe(a, c)
    {
      LexTransitive(a, b, c);
    }
  }

  /** The first validator whose key verifies the header's signature. */
  function SignerOf(validators: seq<Bytes>, header: Header): (r: Option<Bytes>)
    ensures r.Some? ==> r.value in validators
  {
    if |header.validatorSig| == 0 || |validators| == 0 then None
    else if VerifySignature(HeaderHash(header), header.validatorSig, validators[0]) then Some(validators[0])
    else SignerOf(validators[1..], header)
  }

  /** The i-th key verifies the header's signature, and none before it does. */
  ghost predicate FirstToVerify(validators: seq<Bytes>, header: Header, i: nat)
    requires i < |validators|
  {
    && VerifySignature(HeaderHash(header), header.validatorSig, validators[i])
    && forall j :: 0 <= j < i ==> !VerifySignature(HeaderHash(header), header.validatorSig, validators[j])
  }

  /** The validator whose turn a timestamp is; none when there are no validators. */
  function SlotValidator(validators: seq<Bytes>, timestamp: nat, blockTime: nat): Option<Bytes>
    requires blockTime > 0
  {
    if |validators| == 0 then None
    else if |validators| == 1 then Some(validators[0])
    else Some(validators[(timestamp / blockTime) % |validators|])
  }

  function ExpectedDifficulty(validators: seq<Bytes>, header: Header, signer: Bytes, blockTime: nat): Uint64
    requires blockTime > 0
  {
    if SlotValidator(validators, header.timestamp, blockTime) == Some(signer) then DIFF_IN_TURN else DIFF_NO_TURN
  }

  /** The number of consecutive blocks among which a validator may sign once; 0 for no limit. */
  function SigningWindow(n: nat): nat {
    if n <= 1 then 0 else n / 2 + 1
  }

  // ---------------------------------------------------------------- suspensions, as functions of the record

  predicate Producing(last: map<Bytes, Uint64>, height: Uint64, v: Bytes) {
    if v in last then Sub64(height, last[v]) <= SUSPENSION_WINDOW else height <= SUSPENSION_WINDOW
  }

  function ProducingOf(validators: seq<Bytes>, last: map<Bytes, Uint64>, height: Uint64): seq<Bytes> {
    if |validators| == 0 then [] else
      var n := |validators| - 1;
      ProducingOf(validators[..n], last, height) + (if Producing(last, height, validators[n]) then [validators[n]] else [])
  }

  function EffectiveSet(validators: seq<Bytes>, last: map<Bytes, Uint64>, height: Uint64): seq<Bytes> {
    if height < SUSPENSION_WINDOW then validators
    else if |ProducingOf(validators, last, height)| < MIN_ACTIVE_VALIDATORS then validators
    else ProducingOf(validators, last, height)
  }

  predicate WouldViolateMinActive(validators: seq<Bytes>, last: map<Bytes, Uint64>, height: Uint64, v: Bytes) {
    var active := EffectiveSet(validators, last, height);
    v in active && |active| - 1 < MIN_ACTIVE_VALIDATORS
  }

  predicate Suspended(validators: seq<Bytes>, last: map<Bytes, Uint64>, height: Uint64, v: Bytes) {
    && height >= SUSPENSION_WINDOW
    && !Producing(last, height, v)
    && !WouldViolateMinActive(validators, last, height, v)
  }

  /** No record lies above the engine's height. */
  ghost predicate Bounded(last: map<Bytes, Uint64>, height: Uint64) {
    forall v :: v in last ==> last[v] <= height
  }

  class Engine {
    var validators: seq<Bytes>
    const genesisValidators: seq<Bytes>
    const blockTime: nat
    const staking: bool       // a stake checker is configured
    const minStake: Uint64
    var lastProduced: map<Bytes, Uint64>
    var currentHeight: Uint64

    /** Sorted, at least the genesis set, and nobody staked in twice. */
    ghost predicate Valid()
      reads this
    {
      && blockTime > 0
      && |genesisValidators| > 0
      && SortedBy(LexLe, validators)
      && (forall v :: v in genesisValidators ==> v in validators)
      && (forall i, j :: 0 <= i < j < |validators| && validators[i] == validators[j] ==> validators[i] in genesisValidators)
    }

    /** NewPoA: needs a validator and a positive block time. */
    constructor (genesis: seq<Bytes>, blockTime: nat, staking: bool, minStake: Uint64)
      requires |genesis| > 0 && blockTime > 0
      ensures Valid()
      ensures multiset(validators) == multiset(genesis) && genesisValidators == validators
      ensures this.staking == staking && this.minStake == minStake && this.blockTime == blockTime
      ensures lastProduced == map[] && currentHeight == 0 && Bounded(lastProduced, currentHeight)
    {
      LexIsOrder();
      var sorted := SortSlice(genesis, LexLe);
      MultisetElements(sorted, genesis);
      validators := sorted;
      genesisValidators := sorted;
      this.blockTime := blockTime;
      this.staking := staking;
      this.minStake := minStake;
      lastProduced := map[];
      currentHeight := 0;
    }

    /** AddValidator: a new key joins the set in key order, with a grace period. */
    method AddValidator(pubKey: Bytes)
      requires Valid()
      modifies this`validators, this`lastProduced
      ensures Valid()
      ensures pubKey in old(validators) ==> validators == old(validators) && lastProduced == old(lastProduced)
      ensures pubKey !in old(validators) ==> multiset(validators) == multiset(old(validators) + [pubKey]) && lastProduced == old(lastProduced)[pubKey := currentHeight]
      ensures Elements(validators) == Elements(old(validators)) + {pubKey}
      ensures old(Bounded(lastProduced, currentHeight)) ==> Bounded(lastProduced, currentHeight)
    {
      if pubKey !in validators {
        LexIsOrder();
        var grown := validators + [pubKey];
        var sorted := SortSlice(grown, LexLe);
        MultisetElements(sorted, grown);
        NoNewRepeats(genesisValidators, validators, pubKey, sorted);
        validators := sorted;
        lastProduced := lastProduced[pubKey := currentHeight];
        assert forall v :: v in Elements(grown) <==> v in Elements(old(validators)) || v == pubKey;
        forall v | v in genesisValidators
          ensures v in validators
        {
          assert v in Elements(grown);
        }
      }
    }

    /** RemoveValidator: genesis validators stay; the first matching entry of any other key goes. */
    method RemoveValidator(pubKey: Bytes)
      requires Valid()
      modifies this`validators
      ensures Valid()
      ensures pubKey in genesisValidators ==> validators == old(validators)
      ensures pubKey !in genesisValidators ==> Elements(validators) == Elements(old(validators)) - {pubKey}
    {
      if pubKey in genesisValidators {
        return;
      }
      for i := 0 to |validators|
        invariant validators == old(validators)
        invariant forall j :: 0 <= j < i ==> validators[j] != pubKey
      {
        if validators[i] == pubKey {
          RemovedAt(validators, genesisValidators, i);
          validators := WithoutAt(validators, i);
          return;
        }
      }
    }

    /** IdentifySigner. */
    method IdentifySigner(header: Header) returns (r: Option<Bytes>)
      ensures r == SignerOf(validators, header)
      ensures r.Some? ==> |header.validatorSig| > 0 && exists i :: 0 <= i < |validators| && validators[i] == r.value && FirstToVerify(validators, header, i)
      ensures r.None? ==> |header.validatorSig| == 0 || forall j :: 0 <= j < |validators| ==> !VerifySignature(HeaderHash(header), header.validatorSig, validators[j])
    {
      if |header.validatorSig| == 0 {
        return None;
      }
      for i := 0 to |validators|
        invariant SignerOf(validators, header) == SignerOf(validators[i..], header)
        invariant forall j :: 0 <= j < i ==> !VerifySignature(HeaderHash(header), header.validatorSig, validators[j])
      {
        if VerifySignature(HeaderHash(header), header.validatorSig, validators[i]) {
          return Some(validators[i]);
        }
        assert validators[i..][1..] == validators[i + 1..];
      }
      return None;
    }

    ghost predicate HeaderOk(d: Disk, header: Header)
      requires blockTime > 0
      reads this
    {
      var signer := SignerOf(validators, header);
      && signer.Some?
      && (staking && signer.value !in genesisValidators ==>
            |signer.value| == PUBKEY_SIZE && Total(d.utxos, StakeOf(signer.value)) >= minStake)
      && header.difficulty == ExpectedDifficulty(validators, header, signer.value, blockTime)
    }

    /** VerifyHeader: an authorised signature, enough stake behind it, and the difficulty of its turn. */
    method VerifyHeader(store: Store, header: Header) returns (ok: bool)
      requires Valid()
      ensures IndexesOk(store.db.disk) ==> (ok <==> HeaderOk(store.db.disk, header))
      ensures ok ==> SignerOf(validators, header).Some?
      ensures ok ==> header.difficulty == ExpectedDifficulty(validators, header, SignerOf(validators, header).value, blockTime)
      ensures ok ==> header.difficulty == if SignerOf(validators, header) == Some(validators[(header.timestamp / blockTime) % |validators|]) then 2 else 1
      ensures ok ==> 1 <= header.difficulty <= 2
    {
      var signer := IdentifySigner(header);
      if signer.None? {
        return false;
      }
      if staking && signer.value !in genesisValidators {
        var staked := store.HasStake(signer.value, minStake);
        if !staked {
          return false;
        }
      }
      return header.difficulty == ExpectedDifficulty(validators, header, signer.value, blockTime);
    }

    /** At a timestamp of slot j of a round, VerifyHeader demands difficulty 2 of the j-th validator and 1 of
        all others. */
    lemma {:induction false} TurnDecidesDifficulty(d: Disk, header: Header, q: nat, j: nat, r: nat)
      requires j < |validators| && r < blockTime && header.timestamp == (q * |validators| + j) * blockTime + r
      ensures var signer := SignerOf(validators, header);
              HeaderOk(d, header) <==>
              && signer.Some?
              && (staking && signer.value !in genesisValidators ==>
                    |signer.value| == 33 && Total(d.utxos, StakeOf(signer.value)) >= minStake)
              && header.difficulty == if signer.value == validators[j] then 2 else 1
    {
      hide Total, SlotValidator;
      SlotsInOrder(validators, blockTime, q, j, r);
    }

    /** A header that a validator prepares and signs passes exactly when the stake behind it does: none is
        asked of a genesis validator. */
    lemma {:induction false} PreparedOkExactlyWhen(d: Disk, header: Header, key: Bytes, sig: Bytes)
      requires blockTime > 0 && OnlyKey(validators, Prepared(validators, header, key, blockTime).(validatorSig := sig), key)
      ensures HeaderOk(d, Prepared(validators, header, key, blockTime).(validatorSig := sig)) <==>
              (staking && key !in genesisValidators ==> |key| == PUBKEY_SIZE && Total(d.utxos, StakeOf(key)) >= minStake)
    {
      hide Total, OnlyKey, SlotValidator;
      PreparedVerifies(validators, header, key, sig, blockTime);
    }

    function SigningLimit(): nat
      reads this
    {
      SigningWindow(|validators|)
    }

    // -------------------------------------------------------------- suspensions

    /** RecordBlockProduction. */
    method RecordBlockProduction(signer: Bytes, height: Uint64)
      modifies this`lastProduced, this`currentHeight
      ensures lastProduced == old(lastProduced)[signer := height]
      ensures currentHeight == Max(old(currentHeight), height)
      ensures old(Bounded(lastProduced, currentHeight)) ==> Bounded(lastProduced, currentHeight)
      ensures old(Valid()) ==> Valid()
    {
      lastProduced := lastProduced[signer := height];
      if height > currentHeight {
        currentHeight := height;
      }
    }

    /** SetCurrentHeight: the one call that can lower the height, and so leave records above it; the
        node makes it only after a reset. */
    method SetCurrentHeight(height: Uint64)
      modifies this`currentHeight
      ensures currentHeight == height
      ensures Bounded(lastProduced, currentHeight) <==> forall v :: v in lastProduced ==> lastProduced[v] <= height
      ensures old(Valid()) ==> Valid()
    {
      currentHeight := height;
    }

    method ResetSuspensions()
      modifies this`lastProduced, this`currentHeight
      ensures lastProduced == map[] && currentHeight == 0 && Bounded(lastProduced, currentHeight)
      ensures old(Valid()) ==> Valid()
    {
      lastProduced := map[];
      currentHeight := 0;
    }

    /** EffectiveValidators. */
    method EffectiveValidators() returns (r: seq<Bytes>)
      ensures r == EffectiveSet(validators, lastProduced, currentHeight)
    {
      if currentHeight < SUSPENSION_WINDOW {
        return validators;
      }
      var active: seq<Bytes> := [];
      for i := 0 to |validators|
        invariant active == ProducingOf(validators[..i], lastProduced, currentHeight)
      {
        assert validators[..i + 1][..i] == validators[..i];
        var v := validators[i];
        if v in lastProduced && Sub64(currentHeight, lastProduced[v]) <= SUSPENSION_WINDOW {
          active := active + [v];
        } else if v !in lastProduced && currentHeight <= SUSPENSION_WINDOW {
          active := active + [v];
        }
      }
      assert validators[..|validators|] == validators;
      if |active| < MIN_ACTIVE_VALIDATORS {
        return validators;
      }
      return active;
    }

    method ViolatesMinActive(pubKey: Bytes) returns (r: bool)
      ensures r == WouldViolateMinActive(validators, lastProduced, currentHeight, pubKey)
    {
      var active := EffectiveValidators();
      if pubKey !in active {
        return false;
      }
      return |active| - 1 < MIN_ACTIVE_VALIDATORS;
    }

    /** IsSuspended. */
    method IsSuspended(pubKey: Bytes) returns (r: bool)
      ensures r == Suspended(validators, lastProduced, currentHeight, pubKey)
    {
      if currentHeight < SUSPENSION_WINDOW {
        return false;
      }
      if pubKey !in lastProduced {
        if currentHeight > SUSPENSION_WINDOW {
          var keep := ViolatesMinActive(pubKey);
          return !keep;
        }
        return false;
      }
      if Sub64(currentHeight, lastProduced[pubKey]) > SUSPENSION_WINDOW {
        var keep := ViolatesMinActive(pubKey);
        return !keep;
      }
      return false;
    }
  }

  /** A list without its entry at i. */
  function WithoutAt(s: seq<Bytes>, i: nat): (r: seq<Bytes>)
    requires i < |s|
    ensures |r| == |s| - 1 && forall k :: 0 <= k < |r| ==> r[k] == s[if k < i then k else k + 1]
  {
    s[..i] + s[i + 1..]
  }

  lemma KeptSorted(s: seq<Bytes>, i: nat)
    requires i < |s| && SortedBy(LexLe, s)
    ensures SortedBy(LexLe, WithoutAt(s, i))
  {
    hide LexLe;
  }

  lemma KeptMembers(s: seq<Bytes>, i: nat)
    requires i < |s| && forall j :: 0 <= j < |s| && j != i ==> s[j] != s[i]
    ensures forall v :: v in WithoutAt(s, i) <==> v in s && v != s[i]
  {
    var kept := WithoutAt(s, i);
    forall v | v in s && v != s[i]
      ensures v in kept
    {
      var j :| 0 <= j < |s| && s[j] == v;
      assert kept[if j < i then j else j - 1] == v;
    }
    forall v | v in kept
      ensures v in s && v != s[i]
    {
      var k :| 0 <= k < |kept| && kept[k] == v;
      assert s[if k < i then k else k + 1] == v;
    }
  }

  lemma KeptRepeats(s: seq<Bytes>, genesis: seq<Bytes>, i: nat)
    requires i < |s| && forall k, j :: 0 <= k < j < |s| && s[k] == s[j] ==> s[k] in genesis
    ensures var kept := WithoutAt(s, i); forall k, j :: 0 <= k < j < |kept| && kept[k] == kept[j] ==> kept[k] in genesis
  {
  }

  /** What is left of a validator set when the entry of a key that is not a genesis key goes. */
  lemma {:induction false} RemovedAt(validators: seq<Bytes>, genesis: seq<Bytes>, i: nat)
    requires i < |validators| && validators[i] !in genesis && SortedBy(LexLe, validators)
    requires forall v :: v in genesis ==> v in validators
    requires forall k, j :: 0 <= k < j < |validators| && validators[k] == validators[j] ==> validators[k] in genesis
    ensures var kept := WithoutAt(validators, i);
            && SortedBy(LexLe, kept) && (forall v :: v in genesis ==> v in kept)
            && (forall k, j :: 0 <= k < j < |kept| && kept[k] == kept[j] ==> kept[k] in genesis)
            && Elements(kept) == Elements(validators) - {validators[i]}
  {
    hide LexLe, WithoutAt;
    KeptSorted(validators, i);
    KeptMembers(validators, i);
    KeptRepeats(validators, genesis, i);
  }

  lemma {:induction false} NoNewRepeats(genesis: seq<Bytes>, before: seq<Bytes>, pubKey: Bytes, after: seq<Bytes>)
    requires forall i, j :: 0 <= i < j < |before| && before[i] == before[j] ==> before[i] in genesis
    requires pubKey !in before
    requires multiset(after) == multiset(before + [pubKey])
    ensures forall i, j :: 0 <= i < j < |after| && after[i] == after[j] ==> after[i] in genesis
  {
    forall i, j | 0 <= i < j < |after| && after[i] == after[j]
      ensures after[i] in genesis
    {
      var x := after[i];
      RepeatCounts(after, i, j);
      assert multiset(before + [pubKey])[x] >= 2;
      assert multiset(before + [pubKey]) == multiset(before) + multiset{pubKey};
      assert pubKey !in multiset(before);
      CountsRepeat(before, x);
    }
  }

  // ---------------------------------------------------------------- canonical order and slots

  /** However a validator set came about, its order is the same everywhere: engines with the same keys
      elect the same validator for every timestamp. */
  lemma {:induction false} SameKeysSameSlots(a: seq<Bytes>, b: seq<Bytes>, timestamp: nat, blockTime: nat)
    requires SortedBy(LexLe, a) && SortedBy(LexLe, b) && multiset(a) == multiset(b) && blockTime > 0
    ensures a == b && SlotValidator(a, timestamp, blockTime) == SlotValidator(b, timestamp, blockTime)
  {
    LexIsOrder();
    SortedIsCanonical(LexLe, a, b);
  }

  /** `key` is elected for every timestamp of the slot. */
  ghost predicate Elected(validators: seq<Bytes>, blockTime: nat, slot: nat, key: Bytes)
    requires blockTime > 0
  {
    forall timestamp: nat :: timestamp / blockTime == slot ==> SlotValidator(validators, timestamp, blockTime) == Some(key)
  }

  lemma {:induction false} ElectedIs(validators: seq<Bytes>, blockTime: nat, slot: nat, key: Bytes)
    requires blockTime > 0 && |validators| > 0
    ensures Elected(validators, blockTime, slot, key) <==> validators[slot % |validators|] == key
  {
    DivModUnique(slot, 1, slot, 0);
    DivModUnique(slot * blockTime, blockTime, slot, 0);
    assert SlotValidator(validators, slot * blockTime, blockTime) == Some(validators[slot % |validators|]);
  }

  /** The validators take turns in their order, a slot each: round q gives its slot j to the j-th of them. */
  lemma {:induction false} SlotsInOrder(validators: seq<Bytes>, blockTime: nat, q: nat, j: nat, r: nat)
    requires j < |validators| && r < blockTime
    ensures SlotValidator(validators, (q * |validators| + j) * blockTime + r, blockTime) == Some(validators[j])
  {
    var slot := q * |validators| + j;
    DivModUnique(slot * blockTime + r, blockTime, slot, r);
    DivModUnique(slot, |validators|, q, j);
  }

  /** Among any N consecutive slots every validator has its turn... */
  lemma {:induction false} EveryPlaceHasTurn(validators: seq<Bytes>, blockTime: nat, slot: nat, place: nat)
    requires place < |validators| && blockTime > 0
    ensures exists s: nat :: slot <= s < slot + |validators| && Elected(validators, blockTime, s, validators[place])
  {
    var n := |validators|;
    DivMod(slot, n);
    var turn: nat := if place >= slot % n then place - slot % n else place + n - slot % n;
    TurnMeets(slot, n, turn, place);
    ElectedIs(validators, blockTime, slot + turn, validators[place]);
  }

  /** ... and only one, if nobody is in the set twice. */
  lemma {:induction false} TurnsDistinct(validators: seq<Bytes>, blockTime: nat, slot: nat, s: nat, t: nat, key: Bytes)
    requires slot <= s < slot + |validators| && slot <= t < slot + |validators| && blockTime > 0 && Distinct(validators)
    requires Elected(validators, blockTime, s, key) && Elected(validators, blockTime, t, key)
    ensures s == t
  {
    var n := |validators|;
    ElectedIs(validators, blockTime, s, key);
    ElectedIs(validators, blockTime, t, key);
    assert s % n == t % n;
    DivMod(s, n);
    DivMod(t, n);
    CloseMultiples(s / n, t / n, n, s - t);
  }

  lemma TurnMeets(slot: nat, n: nat, turn: nat, place: nat)
    requires place < n && (slot % n + turn == place || slot % n + turn == place + n)
    ensures (slot + turn) % n == place
  {
    DivMod(slot, n);
    if slot % n + turn == place {
      DivModUnique(slot + turn, n, slot / n, place);
    } else {
      Distribute(slot / n, 1, n);
      DivModUnique(slot + turn, n, slot / n + 1, place);
    }
  }

  lemma CloseMultiples(a: int, b: int, n: nat, d: int)
    requires n > 0 && a * n - b * n == d && d < n && 0 - d < n
    ensures d == 0
  {
    assert (a - b) * n == d;
    if a - b >= 1 {
      MulMonotone(1, a - b, n);
    }
    if b - a >= 1 {
      MulMonotone(1, b - a, n);
    }
  }

  /** Prepare: the difficulty of the signer's turn. */
  function Prepared(validators: seq<Bytes>, header: Header, signer: Bytes, blockTime: nat): Header
    requires blockTime > 0
  {
    header.(difficulty := if SlotValidator(validators, header.timestamp, blockTime) == Some(signer) then DIFF_IN_TURN else DIFF_NO_TURN)
  }

  ghost predicate OnlyKey(validators: seq<Bytes>, header: Header, key: Bytes) {
    && key in validators && |header.validatorSig| > 0
    && forall v :: v in validators ==> (VerifySignature(HeaderHash(header), header.validatorSig, v) <==> v == key)
  }

  /** A header that a validator prepares and signs is the one its peers accept: they identify the
      signer and expect the difficulty it prepared. */
  lemma {:induction false} PreparedVerifies(validators: seq<Bytes>, header: Header, key: Bytes, sig: Bytes, blockTime: nat)
    requires blockTime > 0 && OnlyKey(validators, Prepared(validators, header, key, blockTime).(validatorSig := sig), key)
    ensures var sealed := Prepared(validators, header, key, blockTime).(validatorSig := sig);
            SignerOf(validators, sealed) == Some(key) && sealed.difficulty == ExpectedDifficulty(validators, sealed, key, blockTime)
  {
    OnlyKeySigns(validators, Prepared(validators, header, key, blockTime).(validatorSig := sig), key);
  }

  lemma {:induction false} OnlyKeySigns(validators: seq<Bytes>, header: Header, key: Bytes)
    requires OnlyKey(validators, header, key)
    ensures SignerOf(validators, header) == Some(key)
  {
    if validators[0] != key {
      assert validators == [validators[0]] + validators[1..];
      OnlyKeySigns(validators[1..], header, key);
    }
  }
}
