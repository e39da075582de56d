/** Coin selection of the wallet (internal/wallet/coinselect.go), and that no other choice of coins
    needs fewer inputs. */
module CoinSelect {
  import opened Primitives
  import opened Types
  import opened Arithmetic
  import opened Sorting

  datatype Coin = Coin(outpoint: Outpoint, value: Uint64, script: Script, token: Option<TokenData>)

  datatype Selection = Selection(inputs: seq<Coin>, total: Uint64, change: Uint64)

  datatype SelectError = NoCoins | ZeroTarget | Insufficient(have: Uint64)

  function ValueOf(c: Coin): nat { c.value }

  predicate NoLarger(a: Coin, b: Coin) { a.value <= b.value }

  // ---------------------------------------------------------------- sums

  lemma {:induction false} SumConcat(a: seq<Coin>, b: seq<Coin>)
    ensures Sum(a + b, ValueOf) == Sum(a, ValueOf) + Sum(b, ValueOf)
    decreases |b|
  {
    if |b| == 0 {
      assert a + b == a;
    } else {
      assert (a + b)[..|a + b| - 1] == a + b[..|b| - 1];
      SumConcat(a, b[..|b| - 1]);
    }
  }

  lemma SumOne(c: Coin)
    ensures Sum([c], ValueOf) == c.value
  {
    assert [c][..0] == [];
  }

  lemma SumSplit(s: seq<Coin>, i: nat)
    requires i < |s|
    ensures Sum(s[i..], ValueOf) == s[i].value + Sum(s[i + 1..], ValueOf)
  {
    assert s[i..] == [s[i]] + s[i + 1..];
    SumConcat([s[i]], s[i + 1..]);
    SumOne(s[i]);
  }

  /** The value of a bag of coins. */
  ghost function BagSum(m: multiset<Coin>): nat
    decreases |m|
  {
    if m == multiset{} then 0 else
      var c :| c in m;
      c.value + BagSum(m - multiset{c})
  }

  lemma {:induction false} BagSumRemove(m: multiset<Coin>, c: Coin)
    requires c in m
    ensures BagSum(m) == c.value + BagSum(m - multiset{c})
    decreases |m|
  {
    var d :| d in m && BagSum(m) == d.value + BagSum(m - multiset{d});
    if d != c {
      BagSumRemove(m - multiset{d}, c);
      BagSumRemove(m - multiset{c}, d);
      assert m - multiset{d} - multiset{c} == m - multiset{c} - multiset{d};
    }
  }

  lemma {:induction false} BagSumOf(s: seq<Coin>)
    ensures BagSum(multiset(s)) == Sum(s, ValueOf)
  {
    if |s| > 0 {
      var n := |s| - 1;
      assert s == s[..n] + [s[n]];
      BagSumRemove(multiset(s), s[n]);
      BagSumOf(s[..n]);
      assert multiset(s) - multiset{s[n]} == multiset(s[..n]);
    }
  }

  ghost predicate Ascending(s: seq<Coin>) {
    forall i, j :: 0 <= i < j < |s| ==> s[i].value <= s[j].value
  }

  lemma AscendingPrefix(s: seq<Coin>)
    requires |s| > 0 && Ascending(s)
    ensures Ascending(s[..|s| - 1])
  {
  }

  /** Moving a window of coins up by one does not lower its value. */
  lemma {:induction false} WindowUp(s: seq<Coin>, k: nat)
    requires k < |s| && Ascending(s)
    ensures var n := |s| - 1; Sum(s[..n][n - k..], ValueOf) <= Sum(s[|s| - k..], ValueOf)
  {
    hide Sum;
    var n := |s| - 1;
    assert s[..n][n - k..] == s[n - k..n];
    var window := s[n - k..];
    assert window[..k] == s[n - k..n];
    assert window[1..] == s[|s| - k..];
    SumSplit(window, 0);
    assert window[0..] == window;
    assert window == window[..k] + [window[k]];
    SumConcat(window[..k], [window[k]]);
    SumOne(window[k]);
    assert window[0].value <= window[k].value;
  }

  /** The worth of the k last coins. */
  ghost function TopSum(s: seq<Coin>, k: nat): nat
    requires k <= |s|
  {
    Sum(s[|s| - k..], ValueOf)
  }

  lemma TopSumSteps(s: seq<Coin>, k: nat)
    requires |s| > 0 && k <= |s| - 1 && Ascending(s)
    ensures var below := s[..|s| - 1];
            && |below| == |s| - 1 && Ascending(below)
            && TopSum(s, k + 1) == TopSum(below, k) + s[|s| - 1].value && TopSum(below, k) <= TopSum(s, k)
  {
    hide Sum, Ascending;
    AscendingPrefix(s);
    TopPlusLast(s, k);
    WindowUp(s, k);
  }

  lemma BagSteps(s: seq<Coin>, sub: multiset<Coin>)
    requires |s| > 0 && sub <= multiset(s)
    ensures var last := s[|s| - 1]; var less := sub - multiset{last}; var below := multiset(s[..|s| - 1]);
            && (last in sub ==> less <= below && |sub| == |less| + 1 && BagSum(sub) == BagSum(less) + last.value)
            && (last !in sub ==> sub <= below)
  {
    hide BagSum;
    WithoutLast(s, sub);
    if s[|s| - 1] in sub {
      BagSumRemove(sub, s[|s| - 1]);
    }
  }

  lemma NothingChosen(s: seq<Coin>, sub: multiset<Coin>)
    requires s == [] && sub <= multiset(s)
    ensures sub == multiset{} && |sub| == 0 && BagSum(sub) == 0 && TopSum(s, 0) == 0
  {
    assert sub == multiset{};
  }

  /** No k coins are worth more than the k largest. */
  lemma {:induction false} LargestAreWorthMost(s: seq<Coin>, sub: multiset<Coin>)
    requires Ascending(s) && sub <= multiset(s)
    ensures |sub| <= |s| && BagSum(sub) <= TopSum(s, |sub|)
    decreases |s|
  {
    hide *;
    if |s| == 0 {
      NothingChosen(s, sub);
    } else {
      var n := |s| - 1;
      BagSteps(s, sub);
      AscendingPrefix(s);
      var less := if s[n] in sub then sub - multiset{s[n]} else sub;
      LargestAreWorthMost(s[..n], less);
      TopSumSteps(s, |less|);
    }
  }

  lemma WithoutLast(s: seq<Coin>, sub: multiset<Coin>)
    requires |s| > 0 && sub <= multiset(s)
    ensures var n := |s| - 1;
            if s[n] in sub then sub - multiset{s[n]} <= multiset(s[..n]) && |sub - multiset{s[n]}| == |sub| - 1 else sub <= multiset(s[..n])
  {
    var n := |s| - 1;
    assert s == s[..n] + [s[n]];
    assert multiset(s) == multiset(s[..n]) + multiset{s[n]};
  }

  lemma TopPlusLast(s: seq<Coin>, k: nat)
    requires |s| > 0 && k < |s|
    ensures var n := |s| - 1; Sum(s[n - k..], ValueOf) == Sum(s[..n][n - k..], ValueOf) + s[n].value
  {
    var n := |s| - 1;
    assert s[n - k..] == s[..n][n - k..] + [s[n]];
    SumConcat(s[..n][n - k..], [s[n]]);
    SumOne(s[n]);
  }

  lemma SuffixGrows(s: seq<Coin>, j: nat, k: nat)
    requires j <= k <= |s|
    ensures Sum(s[k..], ValueOf) <= Sum(s[j..], ValueOf)
    decreases k - j
  {
    if j < k {
      SumSplit(s, j);
      SuffixGrows(s, j + 1, k);
    }
  }

  /** If even the k - 1 largest coins do not reach the target, no choice of fewer than k does. */
  lemma {:induction false} FewerFallShort(s: seq<Coin>, k: nat, target: nat)
    requires Ascending(s) && 0 < k <= |s| && Sum(s[|s| - k + 1..], ValueOf) < target
    ensures forall sub :: sub <= multiset(s) && BagSum(sub) >= target ==> |sub| >= k
  {
    hide BagSum, Sum, Ascending;
    forall sub | sub <= multiset(s) && BagSum(sub) >= target
      ensures |sub| >= k
    {
      LargestAreWorthMost(s, sub);
      if |sub| < k {
        SuffixGrows(s, |s| - k + 1, |s| - |sub|);
      }
    }
  }

  // ---------------------------------------------------------------- the method

  /** Every other choice of coins that reaches the target has at least as many inputs. */
  ghost predicate FewestInputs(coins: seq<Coin>, target: nat, inputs: seq<Coin>) {
    forall sub :: sub <= multiset(coins) && BagSum(sub) >= target ==> |sub| >= |inputs|
  }

  /** The smallest coin that suffices on its own. */
  ghost predicate SmallestSufficient(coins: seq<Coin>, target: nat, c: Coin) {
    c in coins && c.value >= target && forall d :: d in coins && d.value >= target ==> c.value <= d.value
  }

  /** The filter: the coins worth something, in their order, and the others. */
  method Worthy(utxos: seq<Coin>) returns (candidates: seq<Coin>, ghost zeros: seq<Coin>)
    ensures multiset(utxos) == multiset(zeros) + multiset(candidates)
    ensures forall c :: c in candidates ==> c.value > 0
    ensures forall c :: c in zeros ==> c.value == 0
    ensures forall c :: c in candidates || c in zeros <==> c in utxos
    ensures Sum(candidates, ValueOf) == Sum(utxos, ValueOf)
  {
    hide Sum;
    candidates, zeros := [], [];
    NothingLeft(utxos);
    NothingWorth([]);
    assert utxos[..0] == [];
    for i := 0 to |utxos|
      invariant multiset(utxos[..i]) == multiset(zeros) + multiset(candidates)
      invariant forall c :: c in candidates ==> c.value > 0
      invariant forall c :: c in zeros ==> c.value == 0
      invariant Sum(candidates, ValueOf) == Sum(utxos[..i], ValueOf)
    {
      var u := utxos[i];
      assert utxos[..i + 1] == utxos[..i] + [u];
      SumConcat(utxos[..i], [u]);
      SumOne(u);
      if u.value > 0 {
        SumConcat(candidates, [u]);
        candidates := candidates + [u];
      } else {
        zeros := zeros + [u];
      }
    }
    assert utxos[..|utxos|] == utxos;
    SplitMembers(utxos, zeros, candidates);
  }

  lemma SplitMembers(whole: seq<Coin>, a: seq<Coin>, b: seq<Coin>)
    requires multiset(whole) == multiset(a) + multiset(b)
    ensures forall c :: c in b || c in a <==> c in whole
  {
    assert forall c :: c in whole <==> c in multiset(whole);
    assert forall c :: c in a <==> c in multiset(a);
    assert forall c :: c in b <==> c in multiset(b);
  }

  /** Strategy 1: the first sufficient coin of the ascending candidates. */
  method FindSingle(candidates: seq<Coin>, target: Uint64) returns (r: Option<Selection>)
    requires Ascending(candidates)
    ensures r.None? ==> forall c :: c in candidates ==> c.value < target
    ensures r.Some? ==> exists c :: SmallestSufficient(candidates, target, c) && r.value == Selection([c], c.value, c.value - target)
  {
    for i := 0 to |candidates|
      invariant forall j :: 0 <= j < i ==> candidates[j].value < target
    {
      var u := candidates[i];
      if u.value >= target {
        assert SmallestSufficient(candidates, target, u);
        return Some(Selection([u], u.value, u.value - target));
      }
    }
    return None;
  }

  /** `s` takes the k largest coins, and while nothing wraps k - 1 of them would not do. */
  ghost predicate TakesLargest(candidates: seq<Coin>, target: nat, s: Selection, k: nat) {
    && 0 < k <= |candidates| && |s.inputs| == k && multiset(s.inputs) == multiset(candidates[|candidates| - k..])
    && s.total == Sum(candidates[|candidates| - k..], ValueOf) % TWO_64
    && s.total >= target && s.change == s.total - target
    && (Sum(candidates, ValueOf) <= MAX_U64 ==> Sum(candidates[|candidates| - k + 1..], ValueOf) < target)
  }

  /** Strategy 2: coins from the largest down until their wrapping total reaches the target. */
  method Accumulate(candidates: seq<Coin>, target: Uint64) returns (r: Option<Selection>)
    requires target > 0
    ensures r.Some? ==> exists k :: TakesLargest(candidates, target, r.value, k)
    ensures r.None? && Sum(candidates, ValueOf) <= MAX_U64 ==> Sum(candidates, ValueOf) < target
    ensures |candidates| > 0 && candidates[|candidates| - 1].value >= target ==>
              var last := candidates[|candidates| - 1]; r == Some(Selection([last], last.value, last.value - target))
  {
    hide *;
    var selected: seq<Coin> := [];
    var total: Uint64 := 0;
    var n := |candidates|;
    NothingLeft(candidates);
    NoWrap(0);
    assert candidates[0..] == candidates;
    for i := n downto 0
      invariant multiset(selected) == multiset(candidates[i..]) && |selected| == n - i
      invariant total == Sum(candidates[i..], ValueOf) % TWO_64
      invariant Sum(candidates, ValueOf) <= MAX_U64 ==> Sum(candidates[i..], ValueOf) < target
      invariant i < n ==> candidates[n - 1].value < target
      invariant i == n ==> total == 0
    {
      SumSplit(candidates, i);
      OneMoreTaken(selected, candidates, i);
      WrapAdds(Sum(candidates[i + 1..], ValueOf), candidates[i].value);
      SuffixGrows(candidates, 0, i);
      NoWrap(candidates[i].value);
      selected := selected + [candidates[i]];
      total := Add64(total, candidates[i].value);
      if total >= target {
        MakeTakesLargest(candidates, target, Selection(selected, total, total - target), i);
        return Some(Selection(selected, total, total - target));
      }
      NoWrap(Sum(candidates[i..], ValueOf));
    }
    return None;
  }

  lemma OneMoreTaken(selected: seq<Coin>, candidates: seq<Coin>, i: nat)
    requires i < |candidates| && multiset(selected) == multiset(candidates[i + 1..]) && |selected| == |candidates| - i - 1
    ensures multiset(selected + [candidates[i]]) == multiset(candidates[i..])
    ensures |selected| == 0 ==> selected + [candidates[i]] == [candidates[i]]
  {
    assert candidates[i..] == [candidates[i]] + candidates[i + 1..];
  }

  lemma MakeTakesLargest(candidates: seq<Coin>, target: nat, s: Selection, i: nat)
    requires i < |candidates| && |s.inputs| == |candidates| - i && multiset(s.inputs) == multiset(candidates[i..])
    requires s.total == Sum(candidates[i..], ValueOf) % TWO_64 && s.total >= target && s.change == s.total - target
    requires Sum(candidates, ValueOf) <= MAX_U64 ==> Sum(candidates[i + 1..], ValueOf) < target
    ensures TakesLargest(candidates, target, s, |candidates| - i)
  {
    hide Sum;
  }

  lemma NothingLeft(s: seq<Coin>)
    ensures Sum(s[|s|..], ValueOf) == 0
  {
  }

  lemma WrapAdds(a: nat, b: nat)
    ensures Add64(a % TWO_64, b) == (a + b) % TWO_64
    ensures Add64(0, b) == b % TWO_64
  {
    DivMod(a, TWO_64);
    ModShift(a % TWO_64 + b, a / TWO_64, TWO_64);
    assert a + b == (a / TWO_64) * TWO_64 + (a % TWO_64 + b);
  }

  lemma NoWrap(a: nat)
    ensures a <= MAX_U64 ==> a % TWO_64 == a
    ensures MAX_U64 == 0xFFFF_FFFF_FFFF_FFFF && TWO_64 > 0
  {
  }

  /** SelectCoins. While the coins add up within uint64: it fails exactly when they cannot reach the
      target, what it selects reaches it with the fewest inputs, and a single sufficient coin, the
      smallest, is taken whenever there is one. */
  method SelectCoins(utxos: seq<Coin>, target: Uint64) returns (r: Result<Selection, SelectError>)
    ensures r.Success? ==> multiset(r.value.inputs) <= multiset(utxos) && Sum(r.value.inputs, ValueOf) >= target
    ensures r.Success? ==> r.value.total == Sum(r.value.inputs, ValueOf) % TWO_64 && r.value.change == r.value.total - target
    ensures Sum(utxos, ValueOf) <= MAX_U64 ==> (r.Success? <==> target > 0 && Sum(utxos, ValueOf) >= target)
    ensures Sum(utxos, ValueOf) <= MAX_U64 && r.Success? ==> r.value.total == Sum(r.value.inputs, ValueOf) && FewestInputs(utxos, target, r.value.inputs)
    ensures r.Failure? ==> match r.error
                           case NoCoins => forall c :: c in utxos ==> c.value == 0
                           case ZeroTarget => target == 0
                           case Insufficient(have) => have == Sum(utxos, ValueOf) % TWO_64 && forall c :: c in utxos ==> c.value < target
    ensures r.Success? && (exists c :: c in utxos && c.value >= target) ==> |r.value.inputs| == 1 && SmallestSufficient(utxos, target, r.value.inputs[0])
  {
    NothingLeft(utxos);
    if |utxos| == 0 {
      return Failure(NoCoins);
    }
    if target == 0 {
      return Failure(ZeroTarget);
    }
    hide Sum, SmallestSufficient, FewestInputs, TakesLargest, Ascending, BagSum;
    var candidates, zeros := Worthy(utxos);
    NothingWorth(candidates);
    if |candidates| == 0 {
      return Failure(NoCoins);
    }
    var sorted := AscendingCoins(candidates);
    var single := FindSingle(sorted, target);
    var accum := Accumulate(sorted, target);
    var best := PickBest(single, accum);
    if best.None? {
      var have := TotalValue(sorted);
      return Failure(Insufficient(have));
    }
    if single.Some? {
      ghost var c :| SmallestSufficient(sorted, target, c) && single.value == Selection([c], c.value, c.value - target);
      SingleIsBest(utxos, candidates, zeros, sorted, target, c);
      LastIsLargest(sorted, target, c);
    } else {
      AccumIsBest(utxos, candidates, zeros, sorted, target, accum.value);
    }
    return Success(best.value);
  }

  /** sort.Slice by value. */
  method AscendingCoins(candidates: seq<Coin>) returns (sorted: seq<Coin>)
    ensures Ascending(sorted) && multiset(sorted) == multiset(candidates) && |sorted| == |candidates|
    ensures (forall c :: c in sorted <==> c in candidates) && Sum(sorted, ValueOf) == Sum(candidates, ValueOf)
  {
    hide *;
    ByValue();
    sorted := SortSlice(candidates, NoLarger);
    MultisetElements(sorted, candidates);
    SameElements(sorted, candidates);
    SameWorth(sorted, candidates);
  }

  /** The final switch: the strategy that wastes less. */
  function PickBest(single: Option<Selection>, accum: Option<Selection>): Option<Selection> {
    if single.Some? && accum.Some? then (if single.value.change <= accum.value.change then single else accum)
    else if single.Some? then single
    else accum
  }

  method TotalValue(utxos: seq<Coin>) returns (total: Uint64)
    ensures total == Sum(utxos, ValueOf) % TWO_64
  {
    total := 0;
    for i := 0 to |utxos|
      invariant total == Sum(utxos[..i], ValueOf) % TWO_64
    {
      SumPrefix(utxos, ValueOf, i);
      WrapAdds(Sum(utxos[..i], ValueOf), utxos[i].value);
      total := Add64(total, utxos[i].value);
    }
    assert utxos[..|utxos|] == utxos;
  }

  lemma NothingWorth(s: seq<Coin>)
    ensures |s| == 0 ==> Sum(s, ValueOf) == 0
  {
  }

  lemma ByValue()
    ensures TotalPreorder(NoLarger)
  {
  }

  lemma SameElements(a: seq<Coin>, b: seq<Coin>)
    requires Elements(a) == Elements(b) && SortedBy(NoLarger, a)
    ensures forall c :: c in a <==> c in b
    ensures Ascending(a)
  {
    assert forall c :: c in a <==> c in Elements(a);
    assert forall c :: c in b <==> c in Elements(b);
    forall i, j | 0 <= i < j < |a|
      ensures a[i].value <= a[j].value
    {
      assert NoLarger(a[i], a[j]);
    }
  }

  lemma SameWorth(a: seq<Coin>, b: seq<Coin>)
    requires multiset(a) == multiset(b)
    ensures Sum(a, ValueOf) == Sum(b, ValueOf)
  {
    BagSumOf(a);
    BagSumOf(b);
  }

  lemma LastIsLargest(sorted: seq<Coin>, target: nat, c: Coin)
    requires Ascending(sorted) && SmallestSufficient(sorted, target, c)
    ensures |sorted| > 0 && sorted[|sorted| - 1].value >= c.value >= target
  {
  }

  lemma {:induction false} SingleIsBest(utxos: seq<Coin>, candidates: seq<Coin>, zeros: seq<Coin>, sorted: seq<Coin>, target: Uint64, c: Coin)
    requires target > 0 && SmallestSufficient(sorted, target, c)
    requires forall d :: d in sorted <==> d in candidates
    requires forall d :: d in zeros ==> d.value == 0
    requires forall d :: d in candidates || d in zeros <==> d in utxos
    ensures SmallestSufficient(utxos, target, c) && FewestInputs(utxos, target, [c])
    ensures multiset([c]) <= multiset(utxos) && Sum([c], ValueOf) == c.value == Sum([c], ValueOf) % TWO_64
    ensures Sum(utxos, ValueOf) >= target
  {
    SumOne(c);
    WorthAtLeast(utxos, c);
    AtLeastOneInput(utxos, target, c);
    hide Sum, BagSum, FewestInputs;
  }

  lemma {:induction false} WorthAtLeast(utxos: seq<Coin>, c: Coin)
    requires c in utxos
    ensures Sum(utxos, ValueOf) >= c.value
  {
    var i :| 0 <= i < |utxos| && utxos[i] == c;
    SumSplit(utxos, i);
    SuffixGrows(utxos, 0, i);
    assert utxos[0..] == utxos;
  }

  lemma AtLeastOneInput(utxos: seq<Coin>, target: Uint64, c: Coin)
    requires target > 0
    ensures FewestInputs(utxos, target, [c])
  {
    forall sub | sub <= multiset(utxos) && BagSum(sub) >= target
      ensures |sub| >= 1
    {
      assert BagSum(multiset{}) == 0;
    }
  }

  /** The worthless coins in front change neither the order nor the largest coins. */
  lemma {:induction false} WholeWallet(zeros: seq<Coin>, sorted: seq<Coin>, k: nat)
    requires Ascending(sorted) && (forall d :: d in zeros ==> d.value == 0) && k <= |sorted|
    ensures Ascending(zeros + sorted)
    ensures (zeros + sorted)[|zeros + sorted| - k..] == sorted[|sorted| - k..]
  {
  }

  lemma {:induction false} AccumIsBest(utxos: seq<Coin>, candidates: seq<Coin>, zeros: seq<Coin>, sorted: seq<Coin>, target: Uint64, s: Selection)
    requires Ascending(sorted) && multiset(sorted) == multiset(candidates) && multiset(utxos) == multiset(zeros) + multiset(candidates)
    requires (forall d :: d in zeros ==> d.value == 0) && Sum(sorted, ValueOf) == Sum(utxos, ValueOf)
    requires exists k :: TakesLargest(sorted, target, s, k)
    ensures multiset(s.inputs) <= multiset(utxos) && Sum(s.inputs, ValueOf) >= target
    ensures s.total == Sum(s.inputs, ValueOf) % TWO_64
    ensures Sum(utxos, ValueOf) <= MAX_U64 ==> Sum(utxos, ValueOf) >= target && s.total == Sum(s.inputs, ValueOf) && FewestInputs(utxos, target, s.inputs)
  {
    hide Sum, BagSum, FewestInputs, Ascending;
    var k :| TakesLargest(sorted, target, s, k);
    var top := sorted[|sorted| - k..];
    assert sorted == sorted[..|sorted| - k] + top;
    SameWorth(s.inputs, top);
    SuffixGrows(sorted, 0, |sorted| - k);
    assert sorted[0..] == sorted;
    NoWrap(Sum(top, ValueOf));
    WrapLowers(Sum(top, ValueOf));
    if Sum(utxos, ValueOf) <= MAX_U64 {
      WholeIsBest(utxos, zeros, sorted, target, s.inputs);
    }
  }

  lemma WrapLowers(a: nat)
    ensures a % TWO_64 <= a
  {
  }

  lemma {:induction false} WholeIsBest(utxos: seq<Coin>, zeros: seq<Coin>, sorted: seq<Coin>, target: nat, inputs: seq<Coin>)
    requires Ascending(sorted) && multiset(utxos) == multiset(zeros) + multiset(sorted) && forall d :: d in zeros ==> d.value == 0
    requires 0 < |inputs| <= |sorted| && Sum(sorted[|sorted| - |inputs| + 1..], ValueOf) < target
    ensures FewestInputs(utxos, target, inputs)
  {
    hide Sum, BagSum;
    var k := |inputs|;
    var whole := zeros + sorted;
    WholeWallet(zeros, sorted, k - 1);
    FewerFallShort(whole, k, target);
    assert multiset(whole) == multiset(utxos);
  }
}
