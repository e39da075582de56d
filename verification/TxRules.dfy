/** Transaction validation: structure (pkg/tx/validate.go) and against the unspent outputs
    (pkg/tx/utxo_validate.go). Each method decides exactly the predicate in its contract. */
module TxRules {
  import opened Primitives
  import opened Types
  import opened Ledger
  import opened Weights

  function ValueOf(o: Output): nat {
    o.value
  }

  predicate OutputScriptOk(o: Output) {
    match o.script.kind
    case P2PKH => true
    case Burn => true
    case Anchor => true
    case Register => true
    case Mint => o.token.Some? && o.value == 0 && |o.script.data| >= ADDRESS_SIZE
    case Stake => |o.script.data| == PUBKEY_SIZE
    case P2SH => false
    case Bridge => false
    case Unknown(_) => false
  }

  predicate OutputOk(o: Output) {
    && (o.value != 0 || o.token.Some?)
    && OutputScriptOk(o)
    && |o.script.data| <= MAX_SCRIPT_DATA
  }

  predicate InputFilled(i: Input) {
    i.prevOut.IsZero() || (|i.pubKey| > 0 && |i.signature| > 0)
  }

  ghost predicate DistinctInputs(ins: seq<Input>) {
    forall i, j :: 0 <= i < j < |ins| ==> ins[i].prevOut != ins[j].prevOut
  }

  ghost predicate TxOk(t: Tx) {
    && 0 < |t.inputs| <= MAX_TX_INPUTS
    && 0 < |t.outputs| <= MAX_TX_OUTPUTS
    && DistinctInputs(t.inputs)
    && (forall i :: 0 <= i < |t.inputs| ==> InputFilled(t.inputs[i]))
    && (forall i :: 0 <= i < |t.outputs| ==> OutputOk(t.outputs[i]))
    && OutSum(t, ValueOf) <= MAX_U64
  }

  /** TotalOutputValue: the sum of the outputs, or none when it leaves uint64. */
  method TotalOutputValue(t: Tx) returns (r: Option<Uint64>)
    ensures r == if OutSum(t, ValueOf) <= MAX_U64 then Some(OutSum(t, ValueOf)) else None
  {
    var total: Uint64 := 0;
    for i := 0 to |t.outputs|
      invariant total == Sum(t.outputs[..i], ValueOf)
    {
      SumPrefix(t.outputs, ValueOf, i);
      SumMonotone(t.outputs, ValueOf, i + 1);
      if total > MAX_U64 - t.outputs[i].value {
        return None;
      }
      total := total + t.outputs[i].value;
    }
    assert t.outputs[..|t.outputs|] == t.outputs;
    return Some(total);
  }

  /** The loop of Validate over the outpoints seen so far. */
  method NoDuplicateInput(ins: seq<Input>) returns (ok: bool)
    ensures ok <==> DistinctInputs(ins)
  {
    var seen: set<Outpoint> := {};
    for i := 0 to |ins|
      invariant DistinctInputs(ins[..i])
      invariant forall op :: op in seen <==> exists j :: 0 <= j < i && ins[j].prevOut == op
    {
      if ins[i].prevOut in seen {
        var j :| 0 <= j < i && ins[j].prevOut == ins[i].prevOut;
        return false;
      }
      seen := seen + {ins[i].prevOut};
    }
    assert ins[..|ins|] == ins;
    return true;
  }

  /** Transaction.Validate. */
  method Validate(t: Tx) returns (ok: bool)
    ensures ok <==> TxOk(t)
  {
    if |t.inputs| == 0 || |t.outputs| == 0 || |t.inputs| > MAX_TX_INPUTS || |t.outputs| > MAX_TX_OUTPUTS {
      return false;
    }
    var distinct := NoDuplicateInput(t.inputs);
    if !distinct {
      return false;
    }
    hide DistinctInputs;
    for i := 0 to |t.inputs|
      invariant forall j :: 0 <= j < i ==> InputFilled(t.inputs[j])
    {
      if t.inputs[i].prevOut.IsZero() {
        continue;
      }
      if |t.inputs[i].pubKey| == 0 || |t.inputs[i].signature| == 0 {
        return false;
      }
    }
    var total: Uint64 := 0;
    for i := 0 to |t.outputs|
      invariant total == Sum(t.outputs[..i], ValueOf)
      invariant forall j :: 0 <= j < i ==> OutputOk(t.outputs[j])
    {
      var o := t.outputs[i];
      SumPrefix(t.outputs, ValueOf, i);
      SumMonotone(t.outputs, ValueOf, i + 1);
      if (o.value == 0 && o.token.None?) || !OutputScriptOk(o) || |o.script.data| > MAX_SCRIPT_DATA {
        return false;
      }
      if total > MAX_U64 - o.value {
        return false;
      }
      total := total + o.value;
    }
    assert t.outputs[..|t.outputs|] == t.outputs;
    return true;
  }

  /** The key in the input opens the script it spends; burn, anchor and register outputs open to nobody. */
  predicate Unlocks(pubKey: Bytes, s: Script) {
    match s.kind
    case P2PKH => |s.data| == ADDRESS_SIZE && PaysTo(pubKey, s.data)
    case Mint => |s.data| >= ADDRESS_SIZE && PaysTo(pubKey, s.data[..ADDRESS_SIZE])
    case Stake => |s.data| == PUBKEY_SIZE && pubKey == s.data
    case _ => false
  }

  predicate PaysTo(pubKey: Bytes, address: Bytes) {
    |pubKey| > 0 && AddressOf(pubKey) == address
  }

  /** Whose an output is: the key behind its address, or the key it stakes. Nobody owns any other kind. */
  ghost predicate OwnedBy(s: Script, key: Bytes) {
    || (s.kind == P2PKH && |s.data| == 20 && s.data == AddressOf(key))
    || (s.kind == Mint && |s.data| >= 20 && s.data[..20] == AddressOf(key))
    || (s.kind == Stake && |s.data| == 33 && s.data == key)
  }

  lemma UnlocksIs(pubKey: Bytes, s: Script)
    ensures Unlocks(pubKey, s) <==> |pubKey| > 0 && OwnedBy(s, pubKey)
  {
  }

  ghost predicate InputOk(i: Input, m: UtxoMap) {
    i.prevOut.IsZero() || (i.prevOut in m && Unlocks(i.pubKey, m[i.prevOut].script))
  }

  ghost predicate SignatureOk(t: Tx, i: Input) {
    i.prevOut.IsZero() || VerifySignature(TxHash(t), i.signature, i.pubKey)
  }

  /** What ValidateWithUTXOs demands of a transaction read against the set `m`. */
  ghost predicate SpendOk(t: Tx, m: UtxoMap) {
    && TxOk(t)
    && (forall i :: 0 <= i < |t.inputs| ==> InputOk(t.inputs[i], m))
    && (forall i :: 0 <= i < |t.inputs| ==> SignatureOk(t, t.inputs[i]))
    && OutSum(t, ValueOf) <= InSum(m, t.inputs, ValueOf) <= MAX_U64
  }

  lemma {:induction false} InSumPrefix(m: UtxoMap, ins: seq<Input>, v: Weight, i: nat)
    requires i < |ins|
    ensures InSum(m, ins[..i + 1], v) == InSum(m, ins[..i], v) + (if ins[i].prevOut.IsZero() || ins[i].prevOut !in m then 0 else v(AsOutput(m[ins[i].prevOut])))
  {
    assert ins[..i + 1][..i] == ins[..i];
  }

  lemma {:induction false} InSumMonotone(m: UtxoMap, ins: seq<Input>, v: Weight, i: nat)
    requires i <= |ins|
    ensures InSum(m, ins[..i], v) <= InSum(m, ins, v)
    decreases |ins| - i
  {
    if i == |ins| {
      assert ins[..i] == ins;
    } else {
      InSumPrefix(m, ins, v, i);
      InSumMonotone(m, ins, v, i + 1);
    }
  }

  ghost predicate InputsOk(t: Tx, m: UtxoMap, n: nat)
    requires n <= |t.inputs|
  {
    forall i :: 0 <= i < n ==> InputOk(t.inputs[i], m)
  }

  ghost predicate SignaturesOk(t: Tx, n: nat)
    requires n <= |t.inputs|
  {
    forall i :: 0 <= i < n ==> SignatureOk(t, t.inputs[i])
  }

  lemma InSumNext(m: UtxoMap, ins: seq<Input>, i: nat)
    requires i < |ins|
    ensures InSum(m, ins[..i + 1], ValueOf) == InSum(m, ins[..i], ValueOf) + (if ins[i].prevOut.IsZero() || ins[i].prevOut !in m then 0 else m[ins[i].prevOut].value)
    ensures InSum(m, ins[..i + 1], ValueOf) <= InSum(m, ins, ValueOf)
  {
    InSumPrefix(m, ins, ValueOf, i);
    InSumMonotone(m, ins, ValueOf, i + 1);
  }

  /** The input loop: every input exists and opens its script; the sum of what they bring. */
  method SumInputs(t: Tx, m: UtxoMap) returns (total: Option<Uint64>)
    ensures total.Some? <==> InputsOk(t, m, |t.inputs|) && InSum(m, t.inputs, ValueOf) <= MAX_U64
    ensures total.Some? ==> total.value == InSum(m, t.inputs, ValueOf)
  {
    hide InSum, Unlocks;
    assert InSum(m, t.inputs[..0], ValueOf) == 0 by { NothingIn(m, t.inputs); }
    var sum: Uint64 := 0;
    for i := 0 to |t.inputs|
      invariant sum == InSum(m, t.inputs[..i], ValueOf)
      invariant InputsOk(t, m, i)
    {
      var op := t.inputs[i].prevOut;
      InSumNext(m, t.inputs, i);
      if op.IsZero() {
        continue;
      }
      if op !in m || !Unlocks(t.inputs[i].pubKey, m[op].script) {
        assert !InputOk(t.inputs[i], m);
        return None;
      }
      if sum > MAX_U64 - m[op].value {
        return None;
      }
      sum := sum + m[op].value;
    }
    assert t.inputs[..|t.inputs|] == t.inputs;
    return Some(sum);
  }

  lemma NothingIn(m: UtxoMap, ins: seq<Input>)
    ensures InSum(m, ins[..0], ValueOf) == 0
  {
  }

  /** VerifySignatures. */
  method VerifySignatures(t: Tx) returns (ok: bool)
    ensures ok <==> SignaturesOk(t, |t.inputs|)
  {
    for i := 0 to |t.inputs|
      invariant SignaturesOk(t, i)
    {
      var inp := t.inputs[i];
      if !inp.prevOut.IsZero() && !VerifySignature(TxHash(t), inp.signature, inp.pubKey) {
        assert !SignatureOk(t, inp);
        return false;
      }
    }
    return true;
  }

  lemma SpendOkIs(t: Tx, m: UtxoMap)
    ensures SpendOk(t, m) <==> TxOk(t) && InputsOk(t, m, |t.inputs|) && SignaturesOk(t, |t.inputs|)
                               && OutSum(t, ValueOf) <= InSum(m, t.inputs, ValueOf) <= MAX_U64
  {
    hide TxOk, InputOk, SignatureOk, OutSum, InSum;
  }

  /** An input that its owner signed, or the zero outpoint. */
  ghost predicate OwnerSigned(t: Tx, i: Input, m: UtxoMap) {
    i.prevOut == Outpoint(0, 0) ||
    (i.prevOut in m && |i.pubKey| > 0 && OwnedBy(m[i.prevOut].script, i.pubKey) && VerifySignature(TxHash(t), i.signature, i.pubKey))
  }

  lemma SpendOkExactlyWhen(t: Tx, m: UtxoMap)
    ensures SpendOk(t, m) <==>
            && TxOk(t) && (forall i :: 0 <= i < |t.inputs| ==> OwnerSigned(t, t.inputs[i], m))
            && OutSum(t, ValueOf) <= InSum(m, t.inputs, ValueOf) <= MAX_U64
  {
    hide TxOk, OutSum, InSum;
    forall i | 0 <= i < |t.inputs|
      ensures OwnerSigned(t, t.inputs[i], m) <==> InputOk(t.inputs[i], m) && SignatureOk(t, t.inputs[i])
    {
      var op := t.inputs[i].prevOut;
      assert op.IsZero() <==> op == Outpoint(0, 0);
      if op in m {
        UnlocksIs(t.inputs[i].pubKey, m[op].script);
      }
    }
  }

  /** Transaction.ValidateWithUTXOs: the fee, or none. */
  method ValidateWithUtxos(t: Tx, m: UtxoMap) returns (fee: Option<Uint64>)
    ensures fee.Some? <==> SpendOk(t, m)
    ensures fee.Some? <==>
            && TxOk(t) && (forall i :: 0 <= i < |t.inputs| ==> OwnerSigned(t, t.inputs[i], m))
            && OutSum(t, ValueOf) <= InSum(m, t.inputs, ValueOf) <= MAX_U64
    ensures fee.Some? ==> fee.value == InSum(m, t.inputs, ValueOf) - OutSum(t, ValueOf)
  {
    hide TxOk, InputsOk, SignaturesOk, OutSum, InSum, SpendOk, OwnerSigned;
    SpendOkIs(t, m);
    SpendOkExactlyWhen(t, m);
    var ok := Validate(t);
    if !ok {
      return None;
    }
    var totalInput := SumInputs(t, m);
    if totalInput.None? {
      return None;
    }
    ok := VerifySignatures(t);
    if !ok {
      return None;
    }
    var totalOutput := TotalOutputValue(t);
    if totalOutput.None? || totalInput.value < totalOutput.value {
      return None;
    }
    return Some(totalInput.value - totalOutput.value);
  }

  lemma TxOkDistinctSpends(t: Tx)
    requires TxOk(t)
    ensures DistinctSpends(t.inputs)
  {
  }

  lemma SpendOkInputs(t: Tx, m: UtxoMap)
    requires SpendOk(t, m)
    ensures Spends(t) <= m.Keys
    ensures forall op :: op in Spends(t) ==> m[op].script.kind == P2PKH || m[op].script.kind == Mint || IsStakeScript(m[op].script)
  {
    forall op | op in Spends(t)
      ensures op in m && (m[op].script.kind == P2PKH || m[op].script.kind == Mint || IsStakeScript(m[op].script))
    {
      var i :| 0 <= i < |t.inputs| && !t.inputs[i].prevOut.IsZero() && t.inputs[i].prevOut == op;
      assert InputOk(t.inputs[i], m);
    }
  }
}
