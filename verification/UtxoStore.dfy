/** The UTXO store (internal/utxo/store.go): a primary map and two secondary indexes, kept in
    step one key at a time. */
module UtxoStore {
  import opened Primitives
  import opened Types
  import opened Ledger
  import opened Weights
  import opened Storage

  function AddrKeys(u: Utxo): set<(Bytes, Outpoint)> {
    var a := ScriptAddress(u.script);
    if a.Some? then {(a.value, u.outpoint)} else {}
  }

  function StakeKeys(u: Utxo): set<(Bytes, Outpoint)> {
    if IsStakeScript(u.script) then {(u.script.data, u.outpoint)} else {}
  }

  /** The two indexes list exactly the unspent outputs that belong in them. */
  ghost predicate IndexesOk(d: Disk) {
    && KeysOk(d.utxos)
    && (forall a, op :: (a, op) in d.addrs <==> op in d.utxos && ScriptAddress(d.utxos[op].script) == Some(a))
    && (forall k, op :: (k, op) in d.stakes <==> op in d.utxos && IsStakeScript(d.utxos[op].script) && d.utxos[op].script.data == k)
  }

  function WithUtxo(d: Disk, u: Utxo): Disk {
    d.(utxos := d.utxos[u.outpoint := u], addrs := d.addrs + AddrKeys(u), stakes := d.stakes + StakeKeys(u))
  }

  function WithoutUtxo(d: Disk, op: Outpoint): Disk {
    if op !in d.utxos then d else
      d.(utxos := d.utxos - {op}, addrs := d.addrs - AddrKeys(d.utxos[op]), stakes := d.stakes - StakeKeys(d.utxos[op]))
  }

  /** The output and its index entries are on the disk. */
  ghost predicate Has(d: Disk, u: Utxo) {
    u.outpoint in d.utxos && d.utxos[u.outpoint] == u && AddrKeys(u) <= d.addrs && StakeKeys(u) <= d.stakes
  }

  /** The three regions hold nothing that those of `full` do not. */
  ghost predicate Within(d: Disk, full: Disk) {
    (forall op :: op in d.utxos ==> op in full.utxos && d.utxos[op] == full.utxos[op]) && d.addrs <= full.addrs && d.stakes <= full.stakes
  }

  /** A put that may have stopped anywhere. */
  lemma PutStaysWithin(d: Disk, u: Utxo, d': Disk, full: Disk)
    requires Within(d, full) && Has(full, u)
    requires d'.utxos in {d.utxos, d.utxos[u.outpoint := u]} && d'.addrs <= d.addrs + AddrKeys(u) && d'.stakes <= d.stakes + StakeKeys(u)
    ensures Within(d', full)
  {
    hide AddrKeys, StakeKeys;
  }

  /** The single-key writes of Put and of Delete. */
  function PutWrites(u: Utxo): nat {
    1 + |AddrKeys(u)| + |StakeKeys(u)|
  }

  function DeleteWrites(m: UtxoMap, op: Outpoint): nat {
    if op in m then 1 + |AddrKeys(m[op])| + |StakeKeys(m[op])| else 1
  }

  /** The number of keys in the three regions. */
  function OutputKeys(d: Disk): nat {
    |d.utxos| + |d.addrs| + |d.stakes|
  }

  /** Storing keeps the indexes right exactly when the outpoint is new or its old output had the
      same index entries: nothing removes the entries of an output that is overwritten. */
  lemma {:induction false} PutKeepsIndexes(d: Disk, u: Utxo)
    requires IndexesOk(d)
    ensures IndexesOk(WithUtxo(d, u)) <==>
            (u.outpoint in d.utxos ==> AddrKeys(d.utxos[u.outpoint]) <= AddrKeys(u) && StakeKeys(d.utxos[u.outpoint]) <= StakeKeys(u))
  {
    var d' := WithUtxo(d, u);
    var op := u.outpoint;
    if op in d.utxos {
      var o := d.utxos[op];
      assert forall a :: (a, op) in d.addrs <==> (a, op) in AddrKeys(o);
      assert forall k :: (k, op) in d.stakes <==> (k, op) in StakeKeys(o);
      if IndexesOk(d') {
        assert forall a :: (a, op) in d'.addrs <==> (a, op) in AddrKeys(u);
        assert forall k :: (k, op) in d'.stakes <==> (k, op) in StakeKeys(u);
      }
    }
  }

  lemma {:induction false} DeleteKeepsIndexes(d: Disk, op: Outpoint)
    requires IndexesOk(d)
    ensures IndexesOk(WithoutUtxo(d, op))
  {
  }

  /** A payment or a mint output that carries the address in its first 20 bytes. */
  predicate HeldAt(s: Script, address: Bytes) {
    s.kind in {P2PKH, Mint} && |s.data| >= 20 && s.data[..20] == address
  }

  ghost predicate Unspent(d: Disk, u: Utxo) {
    u.outpoint in d.utxos && d.utxos[u.outpoint] == u
  }

  function StakeOf(pubKey: Bytes): Weight {
    (o: Output) => if IsStakeScript(o.script) && o.script.data == pubKey then o.value else 0
  }

  function UtxoValue(u: Utxo): nat {
    u.value
  }

  predicate StakedBy(u: Utxo, pubKey: Bytes) {
    IsStakeScript(u.script) && u.script.data == pubKey
  }

  /** `pending` are the index entries of the stakes of `pubKey` left in `rest`. */
  ghost predicate StakesLeft(rest: UtxoMap, pending: set<(Bytes, Outpoint)>, pubKey: Bytes) {
    && (forall key :: key in pending ==> key.0 == pubKey && key.1 in rest && StakedBy(rest[key.1], pubKey))
    && (forall op :: op in rest && StakedBy(rest[op], pubKey) ==> (pubKey, op) in pending)
  }

  lemma StakeTaken(rest: UtxoMap, found: seq<Utxo>, op: Outpoint, pubKey: Bytes)
    requires op in rest && StakedBy(rest[op], pubKey)
    ensures Sum(found + [rest[op]], UtxoValue) + Total(rest - {op}, StakeOf(pubKey)) == Sum(found, UtxoValue) + Total(rest, StakeOf(pubKey))
  {
    MapSumRemove(rest, op, Lift(StakeOf(pubKey)));
    assert Lift(StakeOf(pubKey))(rest[op]) == StakeOf(pubKey)(AsOutput(rest[op])) == rest[op].value;
    assert (found + [rest[op]])[..|found|] == found;
  }

  lemma AllStakesLeft(d: Disk, pending: set<(Bytes, Outpoint)>, pubKey: Bytes)
    requires forall key :: key in pending <==> key in d.stakes && key.0 == pubKey
    ensures IndexesOk(d) ==> StakesLeft(d.utxos, pending, pubKey)
    ensures Sum([], UtxoValue) == 0
  {
    if IndexesOk(d) {
      forall key | key in pending
        ensures key.1 in d.utxos && StakedBy(d.utxos[key.1], pubKey)
      {
        assert key == (pubKey, key.1);
      }
      assert forall op :: op in d.utxos && StakedBy(d.utxos[op], pubKey) ==> (pubKey, op) in d.stakes;
    }
  }

  lemma TakeStake(rest: UtxoMap, pending: set<(Bytes, Outpoint)>, key: (Bytes, Outpoint), pubKey: Bytes)
    requires StakesLeft(rest, pending, pubKey) && key in pending
    ensures key.1 in rest && StakedBy(rest[key.1], pubKey)
    ensures StakesLeft(rest - {key.1}, pending - {key}, pubKey)
  {
    assert key == (pubKey, key.1);
    forall other | other in pending - {key}
      ensures other.1 in rest - {key.1}
    {
      assert other == (pubKey, other.1);
    }
  }

  /** `found` lists, once each, the stakes of `pubKey` that are no longer in `rest`. */
  ghost predicate FoundSoFar(d: Disk, rest: UtxoMap, found: seq<Utxo>, pubKey: Bytes) {
    && KeysOk(d.utxos)
    && (forall op :: op in rest ==> op in d.utxos && rest[op] == d.utxos[op])
    && Distinct(found)
    && (forall u :: u in found <==> Unspent(d, u) && StakedBy(u, pubKey) && u.outpoint !in rest)
  }

  lemma FoundNone(d: Disk, pubKey: Bytes)
    requires IndexesOk(d)
    ensures FoundSoFar(d, d.utxos, [], pubKey)
  {
  }

  lemma FoundOneMore(d: Disk, rest: UtxoMap, found: seq<Utxo>, op: Outpoint, pubKey: Bytes)
    requires FoundSoFar(d, rest, found, pubKey) && op in rest && StakedBy(rest[op], pubKey)
    ensures FoundSoFar(d, rest - {op}, found + [rest[op]], pubKey)
    ensures op in d.utxos && d.utxos[op] == rest[op]
  {
    var u := rest[op];
    assert u.outpoint == op && u !in found;
    forall v
      ensures v in found + [u] <==> Unspent(d, v) && StakedBy(v, pubKey) && v.outpoint !in rest - {op}
    {
      assert v in found + [u] <==> v in found || v == u;
    }
  }

  lemma FoundAll(d: Disk, rest: UtxoMap, found: seq<Utxo>, pubKey: Bytes)
    requires FoundSoFar(d, rest, found, pubKey) && StakesLeft(rest, {}, pubKey)
    ensures forall u :: u in found <==> Unspent(d, u) && StakedBy(u, pubKey)
  {
  }

  lemma NoStakeLeft(rest: UtxoMap, pubKey: Bytes)
    requires StakesLeft(rest, {}, pubKey)
    ensures Total(rest, StakeOf(pubKey)) == 0
  {
    var w := Lift(StakeOf(pubKey));
    forall op | op in rest
      ensures w(rest[op]) == 0
    {
      assert w(rest[op]) == StakeOf(pubKey)(AsOutput(rest[op]));
    }
    if MapSum(rest, w) > 0 {
      MapSumPositive(rest, w);
      assert false;
    }
  }

  class Store {
    const db: Database

    constructor (db: Database)
      ensures this.db == db
    {
      this.db := db;
    }

    /** Put: the output, then its index entries. */
    method Put(u: Utxo) returns (ok: bool)
      modifies db
      ensures db.disk.Rest() == old(db.disk.Rest())
      ensures ok ==> db.disk == WithUtxo(old(db.disk), u)
      ensures ok <==> old(db.writesLeft) >= PutWrites(u)
      ensures db.writesLeft == if ok then old(db.writesLeft) - PutWrites(u) else 0
      ensures old(db.writesLeft) == 0 ==> db.disk == old(db.disk)
      ensures db.disk.utxos in {old(db.disk.utxos), old(db.disk.utxos)[u.outpoint := u]}
      ensures db.disk.addrs <= old(db.disk.addrs) + AddrKeys(u) && db.disk.stakes <= old(db.disk.stakes) + StakeKeys(u)
      ensures old(db.disk.utxos.Keys) <= db.disk.utxos.Keys && (old(db.writesLeft) > 0 ==> u.outpoint in db.disk.utxos)
      ensures OutputKeys(db.disk) + db.writesLeft <= old(OutputKeys(db.disk) + db.writesLeft)
    {
      ok := db.Write(db.disk.(utxos := db.disk.utxos[u.outpoint := u]));
      if !ok {
        return;
      }
      var a := ScriptAddress(u.script);
      if a.Some? {
        ok := db.Write(db.disk.(addrs := db.disk.addrs + {(a.value, u.outpoint)}));
        if !ok {
          return;
        }
      }
      if IsStakeScript(u.script) {
        ok := db.Write(db.disk.(stakes := db.disk.stakes + {(u.script.data, u.outpoint)}));
        if !ok {
          return;
        }
      }
      assert db.disk.addrs == old(db.disk.addrs) + AddrKeys(u);
      assert db.disk.stakes == old(db.disk.stakes) + StakeKeys(u);
    }

    /** Delete: the index entries first, whose failure is ignored, then the output. */
    method Delete(op: Outpoint) returns (ok: bool)
      modifies db
      ensures db.disk.Rest() == old(db.disk.Rest())
      ensures ok ==> db.disk == WithoutUtxo(old(db.disk), op)
      ensures ok <==> old(db.writesLeft) >= DeleteWrites(old(db.disk.utxos), op)
      ensures db.writesLeft == if ok then old(db.writesLeft) - DeleteWrites(old(db.disk.utxos), op) else 0
      ensures old(db.writesLeft) == 0 ==> db.disk == old(db.disk)
      ensures old(db.disk.utxos.Keys) - {op} <= db.disk.utxos.Keys
      ensures OutputKeys(db.disk) + db.writesLeft <= old(OutputKeys(db.disk) + db.writesLeft)
    {
      if op in db.disk.utxos {
        var u := db.disk.utxos[op];
        var a := ScriptAddress(u.script);
        if a.Some? {
          var _ := db.Write(db.disk.(addrs := db.disk.addrs - {(a.value, u.outpoint)}));
        }
        if IsStakeScript(u.script) {
          var _ := db.Write(db.disk.(stakes := db.disk.stakes - {(u.script.data, u.outpoint)}));
        }
      }
      ok := db.Write(db.disk.(utxos := db.disk.utxos - {op}));
      if ok {
        if op in old(db.disk.utxos) {
          assert db.disk.addrs == old(db.disk.addrs) - AddrKeys(old(db.disk.utxos)[op]);
          assert db.disk.stakes == old(db.disk.stakes) - StakeKeys(old(db.disk.utxos)[op]);
        } else {
          assert db.disk.utxos == old(db.disk.utxos);
        }
      }
    }

    /** ClearAll: every key of the three regions, one delete each. */
    method ClearAll() returns (ok: bool)
      modifies db
      ensures db.disk.Rest() == old(db.disk.Rest())
      ensures ok ==> db.disk == old(db.disk.Rest())
      ensures ok <==> old(db.writesLeft) >= old(OutputKeys(db.disk))
      ensures db.writesLeft == if ok then old(db.writesLeft) - old(OutputKeys(db.disk)) else 0
      ensures OutputKeys(db.disk) <= old(OutputKeys(db.disk))
    {
      var ops, addrs, stakes := db.disk.utxos.Keys, db.disk.addrs, db.disk.stakes;
      while ops != {}
        invariant db.disk.Rest() == old(db.disk.Rest())
        invariant db.disk.utxos.Keys == ops && db.disk.addrs == addrs && db.disk.stakes == stakes
        invariant OutputKeys(db.disk) <= old(OutputKeys(db.disk)) && db.writesLeft == old(db.writesLeft) - old(OutputKeys(db.disk)) + OutputKeys(db.disk)
        decreases |ops|
      {
        var op :| op in ops;
        ok := db.Write(db.disk.(utxos := db.disk.utxos - {op}));
        if !ok {
          return;
        }
        ops := ops - {op};
      }
      while addrs != {}
        invariant db.disk.Rest() == old(db.disk.Rest())
        invariant db.disk.utxos == map[] && db.disk.addrs == addrs && db.disk.stakes == stakes
        invariant OutputKeys(db.disk) <= old(OutputKeys(db.disk)) && db.writesLeft == old(db.writesLeft) - old(OutputKeys(db.disk)) + OutputKeys(db.disk)
        decreases |addrs|
      {
        var key :| key in addrs;
        ok := db.Write(db.disk.(addrs := db.disk.addrs - {key}));
        if !ok {
          return;
        }
        addrs := addrs - {key};
      }
      while stakes != {}
        invariant db.disk.Rest() == old(db.disk.Rest())
        invariant db.disk.utxos == map[] && db.disk.addrs == {} && db.disk.stakes == stakes
        invariant OutputKeys(db.disk) <= old(OutputKeys(db.disk)) && db.writesLeft == old(db.writesLeft) - old(OutputKeys(db.disk)) + OutputKeys(db.disk)
        decreases |stakes|
      {
        var key :| key in stakes;
        ok := db.Write(db.disk.(stakes := db.disk.stakes - {key}));
        if !ok {
          return;
        }
        stakes := stakes - {key};
      }
      ok := true;
    }

    /** GetByAddress: scan the address index, loading what is still unspent. */
    method GetByAddress(address: Bytes) returns (r: seq<Utxo>)
      ensures IndexesOk(db.disk) ==> Distinct(r)
      ensures IndexesOk(db.disk) ==> forall u :: u in r <==> Unspent(db.disk, u) && ScriptAddress(u.script) == Some(address)
      ensures IndexesOk(db.disk) ==> forall u :: u in r <==> Unspent(db.disk, u) && HeldAt(u.script, address)
    {
      HeldIs(address);
      r := [];
      var pending := set key | key in db.disk.addrs && key.0 == address;
      while pending != {}
        invariant forall key :: key in pending ==> key in db.disk.addrs && key.0 == address
        invariant IndexesOk(db.disk) ==> forall u :: u in r <==> Unspent(db.disk, u) && ScriptAddress(u.script) == Some(address) && (address, u.outpoint) !in pending
        invariant IndexesOk(db.disk) ==> Distinct(r)
        decreases |pending|
      {
        var key :| key in pending;
        assert key == (address, key.1);
        if IndexesOk(db.disk) {
          OneListed(db.disk, address, pending, key.1, r);
        }
        pending := pending - {key};
        if key.1 in db.disk.utxos {
          r := r + [db.disk.utxos[key.1]];
        }
      }
      if IndexesOk(db.disk) {
        assert forall u :: Unspent(db.disk, u) && ScriptAddress(u.script) == Some(address) ==> (address, u.outpoint) in db.disk.addrs;
      }
    }

    static lemma HeldIs(address: Bytes)
      ensures forall s: Script :: HeldAt(s, address) <==> ScriptAddress(s) == Some(address)
    {
    }

    /** The next entry of the address index adds its output to those found so far. */
    static lemma OneListed(d: Disk, address: Bytes, pending: set<(Bytes, Outpoint)>, op: Outpoint, r: seq<Utxo>)
      requires IndexesOk(d) && (address, op) in pending && (address, op) in d.addrs && Distinct(r)
      requires forall u :: u in r <==> Unspent(d, u) && ScriptAddress(u.script) == Some(address) && (address, u.outpoint) !in pending
      ensures op in d.utxos && Distinct(r + [d.utxos[op]])
      ensures forall u :: u in r + [d.utxos[op]] <==> Unspent(d, u) && ScriptAddress(u.script) == Some(address) && (address, u.outpoint) !in pending - {(address, op)}
    {
      hide ScriptAddress;
      assert Unspent(d, d.utxos[op]) && d.utxos[op] !in r;
    }

    /** GetStakes: the stake outputs of a compressed public key; none for a key of another length. */
    method GetStakes(pubKey: Bytes) returns (r: Option<seq<Utxo>>)
      ensures r.Some? <==> |pubKey| == PUBKEY_SIZE
      ensures r.Some? && IndexesOk(db.disk) ==> Sum(r.value, UtxoValue) == Total(db.disk.utxos, StakeOf(pubKey))
      ensures r.Some? && IndexesOk(db.disk) ==> Distinct(r.value) && forall u :: u in r.value <==> Unspent(db.disk, u) && StakedBy(u, pubKey)
    {
      if |pubKey| != PUBKEY_SIZE {
        return None;
      }
      hide *;
      var found: seq<Utxo> := [];
      var pending := set key | key in db.disk.stakes && key.0 == pubKey;
      ghost var rest := db.disk.utxos;
      AllStakesLeft(db.disk, pending, pubKey);
      if IndexesOk(db.disk) {
        FoundNone(db.disk, pubKey);
      }
      while pending != {}
        invariant IndexesOk(db.disk) ==> Sum(found, UtxoValue) + Total(rest, StakeOf(pubKey)) == Total(db.disk.utxos, StakeOf(pubKey))
        invariant IndexesOk(db.disk) ==> StakesLeft(rest, pending, pubKey)
        invariant IndexesOk(db.disk) ==> FoundSoFar(db.disk, rest, found, pubKey)
        decreases |pending|
      {
        var key :| key in pending;
        if IndexesOk(db.disk) {
          TakeStake(rest, pending, key, pubKey);
          StakeTaken(rest, found, key.1, pubKey);
          FoundOneMore(db.disk, rest, found, key.1, pubKey);
          rest := rest - {key.1};
        }
        pending := pending - {key};
        if key.1 in db.disk.utxos {
          found := found + [db.disk.utxos[key.1]];
        }
      }
      if IndexesOk(db.disk) {
        NoStakeLeft(rest, pubKey);
        FoundAll(db.disk, rest, found, pubKey);
      }
      return Some(found);
    }

    /** HasStake (internal/consensus/stake.go): a total that overflows is certainly enough. */
    method HasStake(pubKey: Bytes, minStake: Uint64) returns (ok: bool)
      ensures IndexesOk(db.disk) ==> (ok <==> |pubKey| == PUBKEY_SIZE && Total(db.disk.utxos, StakeOf(pubKey)) >= minStake)
    {
      var stakes := GetStakes(pubKey);
      if stakes.None? {
        return false;
      }
      var total: Uint64 := 0;
      for i := 0 to |stakes.value|
        invariant total == Sum(stakes.value[..i], UtxoValue)
      {
        SumPrefix(stakes.value, UtxoValue, i);
        SumMonotone(stakes.value, UtxoValue, i + 1);
        if total > MAX_U64 - stakes.value[i].value {
          return true;
        }
        total := total + stakes.value[i].value;
      }
      assert stakes.value[..|stakes.value|] == stakes.value;
      return total >= minStake;
    }

    /** GetAllStakedValidators: the keys of the stake index, each once. */
    method GetAllStakedValidators() returns (r: seq<Bytes>)
      ensures IndexesOk(db.disk) ==> forall k :: k in r <==> exists op :: op in db.disk.utxos && IsStakeScript(db.disk.utxos[op].script) && db.disk.utxos[op].script.data == k
      ensures Distinct(r)
    {
      r := [];
      var seen: set<Bytes> := {};
      var pending := db.disk.stakes;
      while pending != {}
        invariant pending <= db.disk.stakes
        invariant forall k :: k in seen <==> k in r
        invariant forall k :: k in r <==> exists key :: key in db.disk.stakes && key !in pending && key.0 == k
        invariant Distinct(r)
        decreases |pending|
      {
        var key :| key in pending;
        pending := pending - {key};
        if key.0 !in seen {
          seen := seen + {key.0};
          r := r + [key.0];
        }
      }
      forall k | IndexesOk(db.disk)
        ensures k in r <==> exists op :: op in db.disk.utxos && IsStakeScript(db.disk.utxos[op].script) && db.disk.utxos[op].script.data == k
      {
        if k in r {
          var key :| key in db.disk.stakes && key.0 == k;
          assert (k, key.1) in db.disk.stakes;
        }
        if op :| op in db.disk.utxos && IsStakeScript(db.disk.utxos[op].script) && db.disk.utxos[op].script.data == k {
          assert (k, op) in db.disk.stakes;
        }
      }
    }
  }
}
