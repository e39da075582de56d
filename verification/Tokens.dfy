/** Token rules of one transaction (internal/token/validate.go) and what they conserve. */
module Tokens {
  import opened Primitives
  import opened Types
  import opened Ledger
  import opened Weights
  import opened TxRules

  /** The amount of token `id` on an output, wherever it is locked. */
  function Carries(id: TokenId): Weight {
    (o: Output) => if o.token.Some? && o.token.value.id == id then o.token.value.amount else 0
  }

  /** The amount of token `id` an output keeps in circulation: burn outputs can never be spent. */
  function Keeps(id: TokenId): Weight {
    (o: Output) => if o.token.Some? && o.token.value.id == id && o.script.kind != Burn then o.token.value.amount else 0
  }

  function Burns(id: TokenId): Weight {
    (o: Output) => if o.token.Some? && o.token.value.id == id && o.script.kind == Burn then o.token.value.amount else 0
  }

  predicate TokenInputAt(m: UtxoMap, i: Input, id: TokenId) {
    !i.prevOut.IsZero() && i.prevOut in m && m[i.prevOut].token.Some? && m[i.prevOut].token.value.id == id
  }

  predicate KeptAt(o: Output, id: TokenId) {
    o.token.Some? && o.token.value.id == id && o.script.kind != Burn
  }

  predicate MintedAt(o: Output, id: TokenId) {
    o.token.Some? && o.token.value.id == id && o.script.kind == Mint
  }

  ghost predicate HasTokenInput(m: UtxoMap, ins: seq<Input>, id: TokenId) {
    exists i :: 0 <= i < |ins| && TokenInputAt(m, ins[i], id)
  }

  ghost predicate HasKept(outs: seq<Output>, id: TokenId) {
    exists i :: 0 <= i < |outs| && KeptAt(outs[i], id)
  }

  ghost predicate Mints(outs: seq<Output>, id: TokenId) {
    exists i :: 0 <= i < |outs| && MintedAt(outs[i], id)
  }

  /** The only identifier a transaction may mint: the one derived from its first input. */
  function MintId(t: Tx): TokenId {
    if |t.inputs| > 0 then DeriveTokenId(t.inputs[0].prevOut) else 0
  }

  predicate TokenOutputOk(o: Output, mintId: TokenId) {
    o.token.None? ||
    (&& (o.script.kind == Mint ==> o.token.value.amount > 0 && o.token.value.id == mintId)
     && (o.script.kind == Burn ==> o.token.value.amount > 0)
     && o.token.value.amount <= MAX_TOKEN_AMOUNT)
  }

  /** Every sum the check accumulates fits in uint64. */
  ghost predicate TokenSumsFit(t: Tx, m: UtxoMap, id: TokenId) {
    && InSum(m, t.inputs, Carries(id)) <= MAX_U64
    && OutSum(t, Keeps(id)) <= MAX_U64
    && OutSum(t, Burns(id)) <= MAX_U64
  }

  ghost predicate TokenBalanced(t: Tx, m: UtxoMap, id: TokenId) {
    && (Mints(t.outputs, id) ==> !HasTokenInput(m, t.inputs, id))
    && (!Mints(t.outputs, id) && (HasTokenInput(m, t.inputs, id) || HasKept(t.outputs, id)) ==>
          InSum(m, t.inputs, Carries(id)) == OutSum(t, Keeps(id)) + OutSum(t, Burns(id)))
  }

  /** What ValidateTokens demands. */
  ghost predicate TokensOk(t: Tx, m: UtxoMap) {
    && (forall i :: 0 <= i < |t.outputs| ==> TokenOutputOk(t.outputs[i], MintId(t)))
    && (forall id :: TokenSumsFit(t, m, id))
    && (forall id :: TokenBalanced(t, m, id))
  }

  // ---------------------------------------------------------------- the method

  function At(m: map<TokenId, nat>, id: TokenId): nat {
    if id in m then m[id] else 0
  }

  lemma NoTotalsYet(t: Tx, m: UtxoMap)
    ensures forall id :: InSum(m, t.inputs[..0], Carries(id)) == 0 && !HasTokenInput(m, t.inputs[..0], id)
  {
  }

  lemma HasTokenInputStep(m: UtxoMap, ins: seq<Input>, i: nat, id: TokenId)
    requires i < |ins|
    ensures HasTokenInput(m, ins[..i + 1], id) <==> HasTokenInput(m, ins[..i], id) || TokenInputAt(m, ins[i], id)
  {
    assert ins[..i + 1] == ins[..i] + [ins[i]];
    assert ins[..i + 1][i] == ins[i];
  }

  /** Gather the token amounts of the inputs. */
  method InputTotals(t: Tx, m: UtxoMap) returns (r: Option<map<TokenId, nat>>)
    ensures r.None? ==> exists id :: !TokenSumsFit(t, m, id)
    ensures r.Some? ==> forall id :: At(r.value, id) == InSum(m, t.inputs, Carries(id)) <= MAX_U64
    ensures r.Some? ==> forall id :: id in r.value <==> HasTokenInput(m, t.inputs, id)
  {
    hide InSum, HasTokenInput;
    var totals: map<TokenId, nat> := map[];
    NoTotalsYet(t, m);
    for i := 0 to |t.inputs|
      invariant forall id :: At(totals, id) == InSum(m, t.inputs[..i], Carries(id)) <= MAX_U64
      invariant forall id :: id in totals <==> HasTokenInput(m, t.inputs[..i], id)
    {
      var inp := t.inputs[i];
      forall id
        ensures InSum(m, t.inputs[..i + 1], Carries(id)) == InSum(m, t.inputs[..i], Carries(id)) + (if TokenInputAt(m, inp, id) then m[inp.prevOut].token.value.amount else 0)
        ensures HasTokenInput(m, t.inputs[..i + 1], id) <==> HasTokenInput(m, t.inputs[..i], id) || TokenInputAt(m, inp, id)
      {
        InSumPrefix(m, t.inputs, Carries(id), i);
        HasTokenInputStep(m, t.inputs, i, id);
      }
      if inp.prevOut.IsZero() || inp.prevOut !in m || m[inp.prevOut].token.None? {
        continue;
      }
      var td := m[inp.prevOut].token.value;
      var current := At(totals, td.id);
      if current > MAX_U64 - td.amount {
        InSumMonotone(m, t.inputs, Carries(td.id), i + 1);
        assert !TokenSumsFit(t, m, td.id);
        return None;
      }
      totals := totals[td.id := current + td.amount];
    }
    assert t.inputs[..|t.inputs|] == t.inputs;
    return Some(totals);
  }

  datatype Gathered = Gathered(kept: map<TokenId, nat>, burned: map<TokenId, nat>, minted: set<TokenId>)

  ghost predicate GatheredFor(g: Gathered, outs: seq<Output>, id: TokenId) {
    && At(g.kept, id) == Sum(outs, Keeps(id)) <= MAX_U64
    && At(g.burned, id) == Sum(outs, Burns(id)) <= MAX_U64
    && (id in g.kept <==> HasKept(outs, id))
    && (id in g.minted <==> Mints(outs, id))
  }

  ghost predicate GatheredFrom(g: Gathered, outs: seq<Output>) {
    forall id :: GatheredFor(g, outs, id)
  }

  /** How the loop body changes the totals, given that nothing overflows. */
  function Gather(g: Gathered, o: Output): Gathered {
    if o.token.None? then g else
      var td := o.token.value;
      if o.script.kind == Burn then g.(burned := g.burned[td.id := At(g.burned, td.id) + td.amount])
      else Gathered(g.kept[td.id := At(g.kept, td.id) + td.amount], g.burned, if o.script.kind == Mint then g.minted + {td.id} else g.minted)
  }

  lemma HasKeptStep(outs: seq<Output>, o: Output, id: TokenId)
    ensures HasKept(outs + [o], id) <==> HasKept(outs, id) || KeptAt(o, id)
    ensures Mints(outs + [o], id) <==> Mints(outs, id) || MintedAt(o, id)
  {
    var all := outs + [o];
    assert all[|outs|] == o;
    assert forall i :: 0 <= i < |outs| ==> all[i] == outs[i];
    if HasKept(outs, id) {
      var i :| 0 <= i < |outs| && KeptAt(outs[i], id);
      assert KeptAt(all[i], id);
    }
    if Mints(outs, id) {
      var i :| 0 <= i < |outs| && MintedAt(outs[i], id);
      assert MintedAt(all[i], id);
    }
  }

  lemma SumStep(outs: seq<Output>, o: Output, v: Weight)
    ensures Sum(outs + [o], v) == Sum(outs, v) + v(o)
  {
    assert (outs + [o])[..|outs|] == outs;
  }

  lemma GatherStep(g: Gathered, outs: seq<Output>, o: Output, id: TokenId)
    requires GatheredFor(g, outs, id)
    requires o.token.Some? ==> At(g.burned, o.token.value.id) + o.token.value.amount <= MAX_U64 || o.script.kind != Burn
    requires o.token.Some? ==> At(g.kept, o.token.value.id) + o.token.value.amount <= MAX_U64 || o.script.kind == Burn
    ensures GatheredFor(Gather(g, o), outs + [o], id)
  {
    HasKeptStep(outs, o, id);
    SumStep(outs, o, Keeps(id));
    SumStep(outs, o, Burns(id));
  }

  lemma GatherAllStep(g: Gathered, outs: seq<Output>, o: Output)
    requires GatheredFrom(g, outs)
    requires o.token.Some? ==> At(g.burned, o.token.value.id) + o.token.value.amount <= MAX_U64 || o.script.kind != Burn
    requires o.token.Some? ==> At(g.kept, o.token.value.id) + o.token.value.amount <= MAX_U64 || o.script.kind == Burn
    ensures GatheredFrom(Gather(g, o), outs + [o])
  {
    var g', outs' := Gather(g, o), outs + [o];
    forall id
      ensures GatheredFor(g', outs', id)
    {
      assert GatheredFor(g, outs, id);
      GatherStep(g, outs, o, id);
    }
  }

  lemma GatheredNext(g: Gathered, outs: seq<Output>, i: nat)
    requires i < |outs| && GatheredFrom(g, outs[..i]) && outs[i].token.Some?
    ensures var td := outs[i].token.value;
            if outs[i].script.kind == Burn then At(g.burned, td.id) + td.amount <= Sum(outs, Burns(td.id))
            else At(g.kept, td.id) + td.amount <= Sum(outs, Keeps(td.id))
  {
    var td := outs[i].token.value;
    assert GatheredFor(g, outs[..i], td.id);
    SumPrefix(outs, Burns(td.id), i);
    SumMonotone(outs, Burns(td.id), i + 1);
    SumPrefix(outs, Keeps(td.id), i);
    SumMonotone(outs, Keeps(td.id), i + 1);
  }

  /** Sort the token outputs into mints, burns and transfers. */
  method OutputTotals(t: Tx) returns (r: Option<Gathered>)
    ensures r.None? ==> (exists i :: 0 <= i < |t.outputs| && !TokenOutputOk(t.outputs[i], MintId(t))) ||
                        (exists id :: OutSum(t, Keeps(id)) > MAX_U64 || OutSum(t, Burns(id)) > MAX_U64)
    ensures r.Some? ==> GatheredFrom(r.value, t.outputs)
    ensures r.Some? ==> forall i :: 0 <= i < |t.outputs| ==> TokenOutputOk(t.outputs[i], MintId(t))
  {
    var g := Gathered(map[], map[], {});
    assert GatheredFrom(g, t.outputs[..0]);
    hide GatheredFrom, Gather, Sum, Keeps, Burns, TokenOutputOk;
    for i := 0 to |t.outputs|
      invariant GatheredFrom(g, t.outputs[..i])
      invariant forall j :: 0 <= j < i ==> TokenOutputOk(t.outputs[j], MintId(t))
    {
      var o := t.outputs[i];
      assert t.outputs[..i + 1] == t.outputs[..i] + [o];
      if o.token.Some? {
        if !TokenOutputOk(o, MintId(t)) {
          return None;
        }
        var td := o.token.value;
        GatheredNext(g, t.outputs, i);
        if o.script.kind == Burn {
          var current := At(g.burned, td.id);
          if current > MAX_U64 - td.amount {
            assert OutSum(t, Burns(td.id)) > MAX_U64;
            return None;
          }
        } else {
          var current := At(g.kept, td.id);
          if current > MAX_U64 - td.amount {
            assert OutSum(t, Keeps(td.id)) > MAX_U64;
            return None;
          }
        }
      }
      GatherAllStep(g, t.outputs[..i], o);
      g := Gather(g, o);
    }
    assert t.outputs[..|t.outputs|] == t.outputs;
    return Some(g);
  }

  /** No identifier is both minted and taken in. */
  method NoMixedMint(minted: set<TokenId>, ins: map<TokenId, nat>) returns (ok: bool)
    ensures ok <==> forall id :: id in minted ==> id !in ins
  {
    var pending := minted;
    while pending != {}
      invariant pending <= minted
      invariant forall id :: id in minted && id !in pending ==> id !in ins
      decreases |pending|
    {
      var id :| id in pending;
      if id in ins {
        assert id in minted;
        return false;
      }
      pending := pending - {id};
    }
    return true;
  }

  predicate Even(g: Gathered, ins: map<TokenId, nat>, id: TokenId) {
    At(g.kept, id) + At(g.burned, id) <= MAX_U64 && At(ins, id) == At(g.kept, id) + At(g.burned, id)
  }

  /** Inputs equal outputs plus burns for every identifier that is taken in or kept, and not minted. */
  method Conserves(g: Gathered, ins: map<TokenId, nat>) returns (ok: bool)
    ensures ok <==> forall id :: (id in ins || id in g.kept) && id !in g.minted ==> Even(g, ins, id)
  {
    var all := ins.Keys + (g.kept.Keys - g.minted);
    var pending := all;
    while pending != {}
      invariant pending <= all
      invariant forall id :: id in all && id !in pending && id !in g.minted ==> Even(g, ins, id)
      decreases |pending|
    {
      var id :| id in pending;
      if id !in g.minted && !Even(g, ins, id) {
        assert id in all;
        return false;
      }
      pending := pending - {id};
    }
    return true;
  }

  lemma BalanceDecided(t: Tx, m: UtxoMap, ins: map<TokenId, nat>, g: Gathered, id: TokenId)
    requires At(ins, id) == InSum(m, t.inputs, Carries(id)) <= MAX_U64
    requires id in ins <==> HasTokenInput(m, t.inputs, id)
    requires GatheredFor(g, t.outputs, id)
    ensures TokenSumsFit(t, m, id)
    ensures TokenBalanced(t, m, id) <==> (id in g.minted ==> id !in ins) && ((id in ins || id in g.kept) && id !in g.minted ==> Even(g, ins, id))
  {
  }

  /** ValidateTokens. */
  method ValidateTokens(t: Tx, m: UtxoMap) returns (ok: bool)
    ensures ok <==> TokensOk(t, m)
  {
    var inputs := InputTotals(t, m);
    if inputs.None? {
      return false;
    }
    var outputs := OutputTotals(t);
    if outputs.None? {
      if id :| OutSum(t, Keeps(id)) > MAX_U64 || OutSum(t, Burns(id)) > MAX_U64 {
        assert !TokenSumsFit(t, m, id);
      }
      return false;
    }
    var ins, g := inputs.value, outputs.value;
    forall id
      ensures TokenSumsFit(t, m, id)
      ensures TokenBalanced(t, m, id) <==> (id in g.minted ==> id !in ins) && ((id in ins || id in g.kept) && id !in g.minted ==> Even(g, ins, id))
    {
      assert GatheredFor(g, t.outputs, id);
      BalanceDecided(t, m, ins, g, id);
    }
    var unmixed := NoMixedMint(g.minted, ins);
    if !unmixed {
      return false;
    }
    ok := Conserves(g, ins);
  }

  predicate HasMintOutput(t: Tx) {
    exists i :: 0 <= i < |t.outputs| && t.outputs[i].script.kind == Mint
  }

  // ---------------------------------------------------------------- what one transaction conserves

  lemma {:induction false} NoKeptNoSum(outs: seq<Output>, id: TokenId)
    requires !HasKept(outs, id)
    ensures Sum(outs, Keeps(id)) == 0
  {
    if |outs| > 0 {
      var n := |outs| - 1;
      assert forall i :: 0 <= i < n ==> outs[..n][i] == outs[i];
      assert !KeptAt(outs[n], id);
      NoKeptNoSum(outs[..n], id);
    }
  }

  lemma {:induction false} NoInputNoSum(m: UtxoMap, ins: seq<Input>, id: TokenId)
    requires !HasTokenInput(m, ins, id)
    ensures InSum(m, ins, Carries(id)) == 0
  {
    if |ins| > 0 {
      var n := |ins| - 1;
      assert forall i :: 0 <= i < n ==> ins[..n][i] == ins[i];
      assert !TokenInputAt(m, ins[n], id);
      NoInputNoSum(m, ins[..n], id);
    }
  }

  /** Spendable outputs are never burns, so an input takes out of circulation all it carries. */
  lemma {:induction false} InputsKeep(m: UtxoMap, ins: seq<Input>, id: TokenId)
    requires forall op :: op in SpendsOf(ins) ==> op in m && m[op].script.kind != Burn
    ensures InSum(m, ins, Keeps(id)) == InSum(m, ins, Carries(id))
  {
    if |ins| > 0 {
      var n := |ins| - 1;
      assert SpendsOf(ins[..n]) <= SpendsOf(ins);
      InputsKeep(m, ins[..n], id);
      assert ins[n].prevOut.IsZero() || ins[n].prevOut in SpendsOf(ins);
    }
  }

  /** The tokens of `id` a valid transaction destroys: the burned outputs, unless none of `id`
      entered or stayed, in which case the burn outputs destroy nothing that existed. */
  ghost function Destroyed(t: Tx, m: UtxoMap, id: TokenId): nat {
    if HasTokenInput(m, t.inputs, id) || HasKept(t.outputs, id) then OutSum(t, Burns(id)) else 0
  }

  /** A valid transaction that does not mint `id` keeps in circulation what it took in, less what
      it burns; one that mints `id` took none in. */
  lemma {:induction false} TokenConservation(t: Tx, m: UtxoMap, id: TokenId)
    requires SpendOk(t, m) && TokensOk(t, m)
    ensures !Mints(t.outputs, id) ==> InSum(m, t.inputs, Keeps(id)) == OutSum(t, Keeps(id)) + Destroyed(t, m, id)
    ensures Mints(t.outputs, id) ==> InSum(m, t.inputs, Keeps(id)) == 0 && id == MintId(t)
  {
    SpendOkInputs(t, m);
    InputsKeep(m, t.inputs, id);
    assert TokenBalanced(t, m, id);
    if !HasTokenInput(m, t.inputs, id) {
      NoInputNoSum(m, t.inputs, id);
    }
    if !HasKept(t.outputs, id) {
      NoKeptNoSum(t.outputs, id);
    }
    if Mints(t.outputs, id) {
      var i :| 0 <= i < |t.outputs| && MintedAt(t.outputs[i], id);
      assert TokenOutputOk(t.outputs[i], MintId(t));
    }
  }

  lemma {:induction false} OneOfSum(outs: seq<Output>, v: Weight, i: nat)
    requires i < |outs|
    ensures Sum(outs, v) >= v(outs[i])
  {
    SumPrefix(outs, v, i);
    SumMonotone(outs, v, i + 1);
  }

  /** When a burn destroys what it declares. For a transaction that does not mint `id`, circulation
      falls by the declared burn exactly when the conservation loop visits `id` (it is taken in, or
      some of it is kept) or nothing is declared. Otherwise nothing of it was there to burn. A
      transaction that mints `id` took none in, so its burns of `id` destroy nothing. */
  lemma {:induction false} BurnDestroysExactlyWhen(t: Tx, m: UtxoMap, id: TokenId)
    requires SpendOk(t, m) && TokensOk(t, m)
    ensures !Mints(t.outputs, id) ==>
              (InSum(m, t.inputs, Keeps(id)) - OutSum(t, Keeps(id)) == OutSum(t, Burns(id)) <==>
               HasTokenInput(m, t.inputs, id) || HasKept(t.outputs, id) || OutSum(t, Burns(id)) == 0)
    ensures !Mints(t.outputs, id) && !HasTokenInput(m, t.inputs, id) && !HasKept(t.outputs, id) ==>
              InSum(m, t.inputs, Keeps(id)) == 0 == OutSum(t, Keeps(id))
    ensures Mints(t.outputs, id) ==> InSum(m, t.inputs, Keeps(id)) == 0 < OutSum(t, Keeps(id))
    ensures Destroyed(t, m, id) == OutSum(t, Burns(id)) <==>
            HasTokenInput(m, t.inputs, id) || HasKept(t.outputs, id) || OutSum(t, Burns(id)) == 0
  {
    TokenConservation(t, m, id);
    if !HasTokenInput(m, t.inputs, id) && !HasKept(t.outputs, id) {
      NoKeptNoSum(t.outputs, id);
    }
    if Mints(t.outputs, id) {
      var i :| 0 <= i < |t.outputs| && MintedAt(t.outputs[i], id);
      assert TokenOutputOk(t.outputs[i], MintId(t));
      OneOfSum(t.outputs, Keeps(id), i);
    }
  }

  /** Such a transaction is accepted with all else in order: it passes both checks, declares a burn,
      and circulation does not change. */
  lemma {:induction false} PhantomBurnIsAccepted(t: Tx, m: UtxoMap, o: Output)
    requires SpendOk(t, m) && t.outputs == [o] && o.script.kind == Burn && o.token.Some?
    requires 0 < o.token.value.amount <= MAX_TOKEN_AMOUNT
    requires forall i :: 0 <= i < |t.inputs| ==> t.inputs[i].prevOut in m && m[t.inputs[i].prevOut].token.None?
    ensures TokensOk(t, m) && !Mints(t.outputs, o.token.value.id)
    ensures OutSum(t, Burns(o.token.value.id)) > 0
    ensures InSum(m, t.inputs, Keeps(o.token.value.id)) == OutSum(t, Keeps(o.token.value.id)) == 0
  {
    hide SpendOk, TokensOk, InSum, OutSum;
    var id := o.token.value.id;
    PhantomBurnPasses(t, m, o);
    BurnDestroysExactlyWhen(t, m, id);
  }

  /** A burn output need not burn anything: the conservation loop never visits an identifier that
      occurs in burn outputs only, so tokens that were never there can be "burned". */
  lemma PhantomBurnPasses(t: Tx, m: UtxoMap, o: Output)
    requires t.outputs == [o] && o.script.kind == Burn && o.token.Some?
    requires 0 < o.token.value.amount <= MAX_TOKEN_AMOUNT
    requires forall i :: 0 <= i < |t.inputs| ==> t.inputs[i].prevOut in m && m[t.inputs[i].prevOut].token.None?
    ensures TokensOk(t, m)
    ensures OutSum(t, Burns(o.token.value.id)) == o.token.value.amount
    ensures InSum(m, t.inputs, Carries(o.token.value.id)) == 0
  {
    assert t.outputs == [] + [o];
    assert TokenOutputOk(o, MintId(t));
    forall id
      ensures TokenSumsFit(t, m, id) && TokenBalanced(t, m, id)
      ensures InSum(m, t.inputs, Carries(id)) == 0
      ensures OutSum(t, Burns(id)) == Burns(id)(o)
    {
      NoInputNoSum(m, t.inputs, id);
      SumStep([], o, Keeps(id));
      SumStep([], o, Burns(id));
    }
  }
}
