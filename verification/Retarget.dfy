/** Difficulty retargeting of proof-of-work sub-chains (internal/consensus/pow.go), and the agreement
    of what the miner prepares with what the chain verifies. */
module Retarget {
  import opened Primitives
  import opened Types
  import opened Arithmetic

  const TWO_63: int := 0x8000_0000_0000_0000

  type Int64 = x: int | -0x8000_0000_0000_0000 <= x < 0x8000_0000_0000_0000

  /** Go's conversion to int64, and the wrap-around of int64 arithmetic. */
  function AsInt64(x: int): Int64 {
    var m := x % TWO_64;
    if m >= TWO_63 then m - TWO_64 else m
  }

  /** The specification: expected / actual, each clamped, scales the difficulty; what leaves uint64
      becomes 1. None is a division by zero, which stops the program. */
  function NextDifficulty(current: Uint64, actual: Int64, expected: Int64): Option<Uint64> {
    var e := Expected(expected);
    var a := Clamped(actual, e);
    if a == 0 then None else Some(Scaled(current, e, a))
  }

  function Expected(expected: Int64): (e: Int64)
    ensures e > 0
  {
    if expected <= 0 then 1 else expected
  }

  function Lowest(e: Int64): (r: Int64)
    requires e > 0
    ensures r > 0
  {
    if e / 4 == 0 then 1 else e / 4
  }

  function Clamped(actual: Int64, e: Int64): Int64
    requires e > 0
  {
    var a := if actual <= 0 then 1 else actual;
    var raised := if a < Lowest(e) then Lowest(e) else a;
    var highest := AsInt64(e * 4);
    if raised > highest then highest else raised
  }

  /** Euclidean division of an exact product, as big.Int has it. */
  function Quotient(current: int, e: int, a: int): int
    requires a != 0
  {
    current * e / a
  }

  function Scaled(current: Uint64, e: Int64, a: Int64): Uint64
    requires a != 0
  {
    var q := Quotient(current, e, a);
    if q <= 0 || q > MAX_U64 then 1 else q
  }

  /** CalcNextDifficulty. */
  method CalcNextDifficulty(currentDiff: Uint64, actualTimeSpan: Int64, expectedTimeSpan: Int64) returns (r: Option<Uint64>)
    ensures r == NextDifficulty(currentDiff, actualTimeSpan, expectedTimeSpan)
  {
    hide AsInt64, Quotient;
    var actual: int, expected: int := actualTimeSpan, expectedTimeSpan;
    if actual <= 0 {
      actual := 1;
    }
    if expected <= 0 {
      expected := 1;
    }
    var minSpan, maxSpan: int := expected / 4, AsInt64(expected * 4);
    if minSpan == 0 {
      minSpan := 1;
    }
    if actual < minSpan {
      actual := minSpan;
    }
    if actual > maxSpan {
      actual := maxSpan;
    }
    if actual == 0 {
      return None;
    }
    var result := Quotient(currentDiff, expected, actual);
    if result <= 0 || result > MAX_U64 {
      return Some(1);
    }
    return Some(result);
  }

  // ---------------------------------------------------------------- one retarget

  /** The ends of the clamp are in order: four times the expected span fits in int64, or wraps to no
      less than a quarter of it. */
  predicate Sane(expected: Int64) {
    Lowest(Expected(expected)) <= AsInt64(Expected(expected) * 4)
  }

  lemma FourfoldWraps(e: Int64)
    requires e > 0
    ensures var x: int := e * 4;
            AsInt64(x) == if x < TWO_63 then x else if x < TWO_63 + TWO_64 then x - TWO_64 else x - 2 * TWO_64
    ensures AsInt64(e * 4) <= e * 4
  {
    var wide: int := e;
    var x := wide * 4;
    if x < TWO_64 {
      assert x % TWO_64 == x;
    } else {
      assert x % TWO_64 == x - TWO_64;
    }
  }

  lemma ClampedBetween(actual: Int64, expected: Int64)
    requires Sane(expected)
    ensures var e := Expected(expected); 0 < Lowest(e) <= Clamped(actual, e) <= 4 * e
  {
    FourfoldWraps(Expected(expected));
    hide AsInt64;
  }

  /** The program divides by zero for exactly one expected span: four times it wraps to 0. */
  lemma {:induction false} StopsExactlyWhen(current: Uint64, actual: Int64, expected: Int64)
    ensures NextDifficulty(current, actual, expected).None? <==> expected == 0x4000_0000_0000_0000
  {
    FourfoldWraps(Expected(expected));
    hide AsInt64;
  }

  /** The exact quotient that CalcNextDifficulty rounds fits in uint64. */
  ghost predicate InRange(current: Uint64, actual: Int64, expected: Int64) {
    var e := Expected(expected);
    Clamped(actual, e) != 0 ==> Quotient(current, e, Clamped(actual, e)) <= MAX_U64
  }

  lemma {:induction false} QuotientAtLeast(current: nat, e: nat, a: nat)
    requires 0 < a <= 4 * e
    ensures current / 4 <= current * e / a
  {
    var x, c := current * e, current / 4;
    FourthAtMost(current, e, a, c, x);
    DivideAtLeast(x, a, c);
  }

  lemma {:induction false} FourthAtMost(current: nat, e: nat, a: nat, c: nat, x: nat)
    requires a <= 4 * e && 4 * c <= current && x == current * e
    ensures c * a <= x
  {
    MulMonotone(4 * c, current, e);
    MulMonotone(a, 4 * e, c);
    Fourfold(c, e);
  }

  lemma {:induction false} DivideAtLeast(x: nat, a: nat, c: nat)
    requires a > 0 && c * a <= x
    ensures c <= x / a
  {
    DivideMeans(x, a, x / a);
    BelowQuotient(x, a, c, x / a);
  }

  lemma BelowQuotient(x: nat, a: nat, c: nat, q: nat)
    requires a > 0 && c * a <= x < q * a + a
    ensures c <= q
  {
    if q + 1 <= c {
      MulMonotone(q + 1, c, a);
      Distribute(q, 1, a);
    }
  }

  lemma Fourfold(c: nat, e: nat)
    ensures (4 * e) * c == (4 * c) * e && c * 1 == c
  {
    Regroup(4, e, c);
  }

  /** Between a quarter, rounded down, and the factor expected / floor(expected / 4); never 0. */
  ghost predicate WithinBounds(current: Uint64, actual: Int64, expected: Int64) {
    var e := Expected(expected); var next := NextDifficulty(current, actual, expected);
    next.Some? && Max(1, current / 4) <= next.value <= Max(1, current * e / Lowest(e))
  }

  /** A retarget moves the difficulty by at most a factor of about four either way, and never to 0. */
  lemma {:induction false} RetargetBounds(current: Uint64, actual: Int64, expected: Int64)
    requires Sane(expected) && InRange(current, actual, expected)
    ensures WithinBounds(current, actual, expected)
    ensures var e := Expected(expected); e % 4 == 0 ==> NextDifficulty(current, actual, expected).value <= Max(1, 4 * current)
  {
    hide AsInt64, Clamped;
    var e := Expected(expected);
    ClampedBetween(actual, expected);
    QuotientAtLeast(current, e, Clamped(actual, e));
    DivideAntitone(current * e, Lowest(e), Clamped(actual, e));
    if e % 4 == 0 {
      ExactQuarter(current, e);
    }
  }

  /** The bounds hold for all difficulties and spans exactly when the clamp is in order: where it is not,
      its wrapped upper end is all that divides. */
  lemma {:induction false} BoundsExactlyWhen(expected: Int64)
    ensures (forall current: Uint64, actual: Int64 :: InRange(current, actual, expected) ==> WithinBounds(current, actual, expected)) <==> Sane(expected)
  {
    var e := Expected(expected);
    if Sane(expected) {
      forall current: Uint64, actual: Int64 | InRange(current, actual, expected)
        ensures WithinBounds(current, actual, expected)
      {
        RetargetBounds(current, actual, expected);
      }
    } else {
      var wide: int := e;
      var highest := AsInt64(wide * 4);
      hide AsInt64;
      assert Clamped(1, e) == highest < Lowest(e);
      if highest <= 0 {
        if highest < 0 {
          NegativeDivisor(8 * wide, highest);
        }
        assert InRange(8, 1, expected) && !WithinBounds(8, 1, expected);
      } else {
        TooMuch(e, highest);
        assert InRange(highest, 1, expected) && !WithinBounds(highest, 1, expected);
      }
    }
  }

  lemma {:induction false} NegativeDivisor(x: nat, a: int)
    requires a < 0
    ensures x / a <= 0
  {
    var q, r := x / a, x % a;
    assert x == q * a + r;
    if q > 0 {
      MulMonotone(1, q, -a);
      Negated(q, a);
    }
  }

  lemma Negated(q: nat, a: int)
    requires a < 0
    ensures q * -a == -(q * a)
  {
  }

  lemma {:induction false} TooMuch(e: Int64, a: Int64)
    requires e > 0 && 0 < a < Lowest(e)
    ensures Quotient(a, e, a) == e && a * e / Lowest(e) < e && e > 1
  {
    var n, k: int := a, Lowest(e);
    DivModUnique(n * e, n, e, 0);
    Smaller(n, e, k);
  }

  lemma {:induction false} Smaller(n: nat, e: nat, k: nat)
    requires 0 < n < k && e > 0
    ensures n * e / k < e && e * n == n * e
  {
    var q := n * e / k;
    DivideMeans(n * e, k, q);
    Swapped(n, e);
    if q >= e {
      MulMonotone(e, q, k);
      Swapped(e, k);
      MulMonotone(n + 1, k, e);
      Distribute(n, 1, e);
      assert false;
    }
  }

  lemma {:induction false} ExactQuarter(current: nat, e: Int64)
    requires e > 0 && e % 4 == 0
    ensures current * e / Lowest(e) == 4 * current
  {
    var k := e / 4;
    assert current * e == (4 * current) * k;
    MulMonotone(4 * current, 4 * current + 1, k);
    DivideBounds(current * e, k, 4 * current, 4 * current);
  }

  ghost predicate AtMostFourfold(current: Uint64, actual: Int64, expected: Int64) {
    InRange(current, actual, expected) ==> NextDifficulty(current, actual, expected).Some? && NextDifficulty(current, actual, expected).value <= Max(1, 4 * current)
  }

  /** The documented upper bound of four times the old difficulty holds for all inputs exactly when
      the expected span is a multiple of 4 or less than 4: otherwise its quarter was rounded down. */
  lemma {:induction false} FourfoldExactlyWhen(expected: Int64)
    requires Sane(expected)
    ensures (forall current: Uint64, actual: Int64 :: AtMostFourfold(current, actual, expected)) <==> Expected(expected) % 4 == 0 || Expected(expected) < 4
  {
    hide AsInt64;
    var e := Expected(expected);
    if e % 4 == 0 || e < 4 {
      forall current: Uint64, actual: Int64
        ensures AtMostFourfold(current, actual, expected)
      {
        if InRange(current, actual, expected) {
          RetargetBounds(current, actual, expected);
          if e < 4 {
            SmallSpan(current, e);
          }
        }
      }
    } else {
      var k := e / 4;
      RoundedQuarter(expected, k);
      assert !AtMostFourfold(k, 1, expected);
    }
  }

  lemma SmallSpan(current: nat, e: Int64)
    requires 0 < e < 4
    ensures current * e / Lowest(e) <= 4 * current
  {
    assert Lowest(e) == 1;
    MulMonotone(e, 4, current);
  }

  lemma RoundedQuarter(expected: Int64, k: Int64)
    requires Sane(expected) && Expected(expected) >= 4 && Expected(expected) % 4 != 0 && k == Expected(expected) / 4
    ensures InRange(k, 1, expected) && NextDifficulty(k, 1, expected) == Some(Expected(expected)) && Expected(expected) > 4 * k
  {
    hide AsInt64;
    var e: int := Expected(expected);
    ClampedBetween(1, expected);
    assert Clamped(1, e) == k;
    DivModUnique(k * e, k, e, 0);
    Swapped(k, e);
  }

  /** Slower blocks never raise the difficulty: antitone in the actual span. */
  lemma {:induction false} RetargetAntitone(current: Uint64, actual: Int64, slower: Int64, expected: Int64)
    requires Sane(expected) && InRange(current, actual, expected) && actual <= slower
    ensures InRange(current, slower, expected)
    ensures NextDifficulty(current, slower, expected).value <= NextDifficulty(current, actual, expected).value
  {
    hide AsInt64;
    var e := Expected(expected);
    ClampedBetween(actual, expected);
    ClampedBetween(slower, expected);
    assert Clamped(actual, e) <= Clamped(slower, e);
    DivideAntitone(current * e, Clamped(actual, e), Clamped(slower, e));
  }

  /** A period that took exactly as long as it should leaves every difficulty alone exactly when four
      times it does not wrap below it. */
  lemma {:induction false} FixpointExactlyWhen(expected: Int64)
    requires expected > 0
    ensures (forall current: Uint64 :: current > 0 ==> NextDifficulty(current, expected, expected) == Some(current)) <==> expected <= AsInt64(expected * 4)
  {
    hide AsInt64;
    var highest := AsInt64(expected * 4);
    if expected <= highest {
      assert Clamped(expected, expected) == expected;
      forall current: Uint64 | current > 0
        ensures NextDifficulty(current, expected, expected) == Some(current)
      {
        DivModUnique(current * expected, expected, current, 0);
      }
    } else {
      assert Clamped(expected, expected) == highest;
      if highest == 0 {
        assert NextDifficulty(1, expected, expected).None?;
      } else if highest < 0 {
        var wide: int := expected;
        NegativeDivisor(2 * wide, highest);
        assert NextDifficulty(2, expected, expected) == Some(1);
      } else {
        DivModUnique(highest * expected, highest, expected, 0);
        Swapped(highest, expected);
        assert NextDifficulty(highest, expected, expected) == Some(expected);
      }
    }
  }

  /** The result in the caller's own spans: within the limits of the clamp it is the old difficulty times
      the expected span over the actual one, rounded down, and at least 1; beyond them it is what the limit
      gives, a quarter for slow periods. */
  lemma {:induction false} RetargetFollowsSpan(current: Uint64, actual: Int64, expected: Int64)
    requires Sane(expected)
    ensures var next, e := NextDifficulty(current, actual, expected), if expected <= 0 then 1 else expected;
            var low, high := Max(1, e / 4), AsInt64(e * 4);
            && next.Some? && low <= high
            && (low <= actual <= high ==> RoundedDown(current * e, actual, next.value))
            && (actual <= low ==> RoundedDown(current * e, low, next.value))
            && (actual >= high ==> RoundedDown(current * e, high, next.value))
            && (actual >= high == e * 4 ==> next.value == Max(1, current / 4))
  {
    hide AsInt64;
    var e: int := Expected(expected);
    var low, high, a := Lowest(e), AsInt64(e * 4), Clamped(actual, e);
    assert a == if actual <= low then low else if actual >= high then high else actual;
    ScaledIs(current, e, a);
    if actual >= high == e * 4 {
      QuarterIs(current, e, NextDifficulty(current, actual, expected).value);
    }
  }

  /** `d` is x / a rounded down, or 1 where that is 0 or leaves uint64. */
  ghost predicate RoundedDown(x: int, a: int, d: int) {
    if a <= x < TWO_64 * a then d * a <= x < (d + 1) * a else d == 1
  }

  lemma {:induction false} ScaledIs(current: Uint64, e: Int64, a: Int64)
    requires a > 0 && e > 0
    ensures RoundedDown(current * e, a, Scaled(current, e, a))
  {
    var x, q := current * e, current * e / a;
    DivideMeans(x, a, q);
    Distribute(q, 1, a);
    if q == 0 {
      assert x < a;
    } else if q > MAX_U64 {
      MulMonotone(TWO_64, q, a);
    } else {
      MulMonotone(q + 1, TWO_64, a);
      assert Scaled(current, e, a) == q;
      assert q * a <= x < (q + 1) * a;
    }
  }

  lemma {:induction false} QuarterIs(current: Uint64, e: Int64, d: nat)
    requires e > 0 && RoundedDown(current * e, e * 4, d)
    ensures d == Max(1, current / 4)
  {
    var x, a, c := current * e, e * 4, current / 4;
    QuarterBounds(current, e, c);
    if x < a {
      BelowQuotient(x, a, c, 0);
    } else if x >= TWO_64 * a {
      MulMonotone(current, TWO_64, e);
      Regroup(TWO_64, e, 4);
    } else {
      Distribute(d, 1, a);
      BelowQuotient(x, a, d, c);
      BelowQuotient(x, a, c, d);
    }
  }

  lemma {:induction false} QuarterBounds(current: nat, e: nat, c: nat)
    requires 4 * c <= current < 4 * c + 4 && e > 0
    ensures c * (e * 4) <= current * e < c * (e * 4) + e * 4
  {
    MulMonotone(4 * c, current, e);
    MulMonotone(current + 1, 4 * c + 4, e);
    Distribute(current, 1, e);
    Distribute(4 * c, 4, e);
    Regroup(4, c, e);
    Regroup(c, e, 4);
  }

  /** Where the exact quotient leaves uint64 the difficulty does not saturate: it falls to 1. */
  lemma {:induction false} OverflowDropsToOne(current: Uint64, actual: Int64, expected: Int64)
    ensures !InRange(current, actual, expected) ==> NextDifficulty(current, actual, expected) == Some(1)
    ensures InRange(current, actual, expected) && Sane(expected) && current >= 8 ==> NextDifficulty(current, actual, expected) != Some(1)
  {
    hide AsInt64;
    if InRange(current, actual, expected) && Sane(expected) {
      RetargetBounds(current, actual, expected);
    }
  }

  // ---------------------------------------------------------------- many retargets

  function Power(b: nat, k: nat): nat {
    if k == 0 then 1 else b * Power(b, k - 1)
  }

  /** The difficulty after retargets over the given spans. */
  function Retargeted(current: Uint64, spans: seq<Int64>, expected: Int64): Option<Uint64> {
    if |spans| == 0 then Some(current) else
      var before := Retargeted(current, spans[..|spans| - 1], expected);
      if before.None? then None else NextDifficulty(before.value, spans[|spans| - 1], expected)
  }

  ghost predicate AllInRange(current: Uint64, spans: seq<Int64>, expected: Int64) {
    forall i :: 0 <= i < |spans| ==>
      var before := Retargeted(current, spans[..i], expected);
      before.Some? && InRange(before.value, spans[i], expected)
  }

  /** k retargets divided the difficulty by at most 4^k, and multiplied it by at most the k-th power of
      expected / floor(expected / 4), which is 4^k if 4 divides the expected span. */
  ghost predicate Compounded(current: nat, last: nat, e: Int64, k: nat)
    requires e > 0
  {
    && 0 < last && last * Power(Lowest(e), k) <= current * Power(e, k)
    && current < Power(4, k) * (last + 1)
    && (e % 4 == 0 ==> last <= Power(4, k) * current)
  }

  /** The bounds compound. */
  lemma {:induction false} RetargetsCompound(current: Uint64, spans: seq<Int64>, expected: Int64)
    requires Sane(expected) && current > 0 && AllInRange(current, spans, expected)
    ensures var last := Retargeted(current, spans, expected);
            last.Some? && Compounded(current, last.value, Expected(expected), |spans|)
    decreases |spans|
  {
    hide AsInt64, InRange, NextDifficulty, Compounded;
    if |spans| == 0 {
      NotYet(current, Expected(expected));
    } else {
      var n := |spans| - 1;
      forall i | 0 <= i < n
        ensures var before := Retargeted(current, spans[..n][..i], expected); before.Some? && InRange(before.value, spans[..n][i], expected)
      {
        assert spans[..n][..i] == spans[..i];
      }
      RetargetsCompound(current, spans[..n], expected);
      var before := Retargeted(current, spans[..n], expected).value;
      assert InRange(before, spans[n], expected);
      NextCompounded(current, before, spans[n], expected, n);
    }
  }

  lemma NotYet(current: nat, e: Int64)
    requires e > 0 && current > 0
    ensures Compounded(current, current, e, 0)
  {
  }

  lemma {:induction false} NextCompounded(current: nat, before: Uint64, actual: Int64, expected: Int64, n: nat)
    requires Sane(expected) && InRange(before, actual, expected) && Compounded(current, before, Expected(expected), n)
    ensures var next := NextDifficulty(before, actual, expected);
            next.Some? && Compounded(current, next.value, Expected(expected), n + 1)
  {
    hide AsInt64, InRange, NextDifficulty, Power, Lowest;
    OneRetarget(before, actual, expected);
    CompoundStep(current, before, NextDifficulty(before, actual, expected).value, Expected(expected), Lowest(Expected(expected)), n);
  }

  lemma {:induction false} CompoundStep(current: nat, before: nat, last: nat, e: nat, low: nat, n: nat)
    requires before > 0 && before * Power(low, n) <= current * Power(e, n) && current < Power(4, n) * (before + 1)
    requires before / 4 <= last && last * low <= before * e
    ensures last * Power(low, n + 1) <= current * Power(e, n + 1) && current < Power(4, n + 1) * (last + 1)
    ensures before <= Power(4, n) * current && last <= 4 * before ==> last <= Power(4, n + 1) * current
  {
    hide Power;
    PowerNext(4, n);
    PowerNext(e, n);
    PowerNext(low, n);
    CompoundLower(current, before, last, Power(4, n));
    CompoundUpper(current, before, last, e, low, Power(e, n), Power(low, n));
    if before <= Power(4, n) * current && last <= 4 * before {
      CompoundFourth(current, before, last, Power(4, n));
    }
  }

  lemma PowerNext(b: nat, k: nat)
    ensures Power(b, k + 1) == b * Power(b, k)
  {
  }

  /** The bounds of one retarget, of a difficulty that is not 0, without a division. */
  lemma {:induction false} OneRetarget(before: Uint64, actual: Int64, expected: Int64)
    requires Sane(expected) && InRange(before, actual, expected) && before > 0
    ensures NextDifficulty(before, actual, expected).Some?
    ensures var last, e := NextDifficulty(before, actual, expected).value, Expected(expected);
            0 < last && before / 4 <= last && last * Lowest(e) <= before * e && (e % 4 == 0 ==> last <= 4 * before)
  {
    RetargetBounds(before, actual, expected);
    AtLeastOne(before, Expected(expected));
    hide AsInt64, NextDifficulty, Lowest, InRange, Expected;
    Scales(NextDifficulty(before, actual, expected).value, before * Expected(expected) / Lowest(Expected(expected)), Lowest(Expected(expected)), before * Expected(expected));
  }

  lemma Scales(last: nat, q: nat, low: nat, x: nat)
    requires last <= q && q * low <= x
    ensures last * low <= x
  {
    MulMonotone(last, q, low);
  }

  lemma CompoundLower(current: nat, before: nat, last: nat, p: nat)
    requires current < p * (before + 1) && before / 4 <= last
    ensures current < (4 * p) * (last + 1)
  {
    MulMonotone(before + 1, 4 * (last + 1), p);
    Swapped(before + 1, p);
    Regroup(4, last + 1, p);
    Swapped(4 * (last + 1), p);
    Regroup(4, p, last + 1);
  }

  lemma CompoundFourth(current: nat, before: nat, last: nat, p: nat)
    requires 0 < before <= p * current && last <= 4 * before
    ensures last <= (4 * p) * current
  {
    Regroup(4, p, current);
  }

  lemma {:induction false} AtLeastOne(before: nat, e: Int64)
    requires before > 0 && e > 0
    ensures before * e / Lowest(e) >= 1 && (before * e / Lowest(e)) * Lowest(e) <= before * e
  {
    MulMonotone(1, before, e);
    DivideMeans(before * e, Lowest(e), before * e / Lowest(e));
    DivideBounds(before * e, Lowest(e), 1, before * e / Lowest(e));
  }

  lemma {:induction false} CompoundUpper(current: nat, before: nat, last: nat, e: nat, low: nat, pe: nat, pl: nat)
    requires before * pl <= current * pe && last * low <= before * e
    ensures last * (low * pl) <= current * (e * pe)
  {
    MulMonotone(last * low, before * e, pl);
    MulMonotone(before * pl, current * pe, e);
    Regroup(last, low, pl);
    Regroup(before, e, pl);
    Regroup(current, e, pe);
  }

  lemma Swapped(x: nat, y: nat)
    ensures x * y == y * x
  {
  }

  // ---------------------------------------------------------------- along a chain

  datatype PoW = PoW(initial: Uint64, interval: Int64, blockTime: Int64)

  predicate ShouldAdjust(p: PoW, height: nat) {
    height > 0 && p.interval > 0 && height % p.interval == 0
  }

  function TimestampAt(chain: seq<Header>, height: nat): Option<Uint64> {
    if height < |chain| then Some(chain[height].timestamp) else None
  }

  /** ExpectedDifficulty, reading timestamps off the headers of a chain. */
  function ExpectedDifficulty(p: PoW, height: nat, prevDifficulty: Uint64, chain: seq<Header>): Option<Uint64> {
    if height <= 1 || prevDifficulty == 0 then Some(p.initial)
    else if !ShouldAdjust(p, height) then Some(prevDifficulty)
    else
      MultipleIsAbove(height, p.interval);
      var start, end := TimestampAt(chain, height - p.interval), TimestampAt(chain, height - 1);
      if start.None? || end.None? then Some(prevDifficulty)
      else NextDifficulty(prevDifficulty, AsInt64(end.value - start.value), AsInt64(p.interval * p.blockTime))
  }

  lemma MultipleIsAbove(height: nat, interval: int)
    requires interval > 0 && height > 0 && height % interval == 0
    ensures height >= interval
  {
  }

  /** verifyDifficulty of the chain for the block on top of `chain`: the difficulty it demands. */
  function Demanded(p: PoW, chain: seq<Header>): Option<Uint64> {
    var height := |chain|;
    ExpectedDifficulty(p, height, if height > 1 then chain[height - 1].difficulty else 0, chain)
  }

  /** The DifficultyFn closure of the node, for an engine that adjusts. */
  function DifficultyFn(p: PoW, chain: seq<Header>): Option<Uint64> {
    var height := |chain|;
    if height <= 1 then Some(p.initial) else ExpectedDifficulty(p, height, chain[height - 1].difficulty, chain)
  }

  /** Prepare: through the closure when the engine adjusts, the initial difficulty otherwise. */
  method Prepare(p: PoW, chain: seq<Header>, header: Header) returns (r: Option<Header>)
    ensures Verified(p, chain) && p.initial > 0 ==> (r.Some? <==> Demanded(p, chain).Some?)
    ensures Verified(p, chain) && p.initial > 0 && r.Some? ==> r.value == header.(difficulty := Demanded(p, chain).value)
  {
    if Verified(p, chain) && p.initial > 0 {
      PreparedIsDemanded(p, chain);
    }
    if p.interval > 0 {
      var d := DifficultyFn(p, chain);
      if d.None? {
        return None;
      }
      return Some(header.(difficulty := d.value));
    }
    return Some(header.(difficulty := p.initial));
  }

  function Prepared(p: PoW, chain: seq<Header>): Option<Uint64> {
    if p.interval > 0 then DifficultyFn(p, chain) else Some(p.initial)
  }

  /** Every block above genesis carries the difficulty that was demanded of it. */
  ghost predicate Verified(p: PoW, chain: seq<Header>) {
    forall h :: 1 <= h < |chain| ==> VerifiedAt(p, chain, h)
  }

  ghost predicate VerifiedAt(p: PoW, chain: seq<Header>, h: nat)
    requires h < |chain|
  {
    Demanded(p, chain[..h]) == Some(chain[h].difficulty)
  }

  /** An engine that does not adjust keeps its initial difficulty on every verified chain. */
  lemma {:induction false} FixedStaysInitial(p: PoW, chain: seq<Header>, h: nat)
    requires Verified(p, chain) && p.initial > 0 && p.interval <= 0 && 1 <= h < |chain|
    ensures chain[h].difficulty == p.initial
    decreases h
  {
    assert VerifiedAt(p, chain, h);
    if h > 1 {
      FixedStaysInitial(p, chain, h - 1);
      assert chain[..h][h - 1] == chain[h - 1];
    }
  }

  lemma {:induction false} NeverZero(p: PoW, chain: seq<Header>, h: nat)
    requires Verified(p, chain) && p.initial > 0 && 1 <= h < |chain|
    ensures chain[h].difficulty > 0
    decreases h
  {
    hide AsInt64, Clamped;
    assert VerifiedAt(p, chain, h);
    if h > 1 {
      NeverZero(p, chain, h - 1);
      assert chain[..h][h - 1] == chain[h - 1];
    }
  }

  /** The schedule: the first block has the initial difficulty, a block at a multiple of the interval the
      one retargeted from the interval before it, and every other block that of its parent. */
  lemma {:induction false} AdjustsOnSchedule(p: PoW, chain: seq<Header>, h: nat)
    requires Verified(p, chain) && p.initial > 0 && 1 <= h < |chain|
    ensures h == 1 ==> chain[h].difficulty == p.initial
    ensures h > 1 && (p.interval <= 0 || h % p.interval != 0) ==> chain[h].difficulty == chain[h - 1].difficulty
    ensures h > 1 && p.interval > 0 && h % p.interval == 0 ==>
              h >= p.interval &&
              Some(chain[h].difficulty) == NextDifficulty(chain[h - 1].difficulty, AsInt64(chain[h - 1].timestamp - chain[h - p.interval].timestamp), AsInt64(p.interval * p.blockTime))
  {
    hide AsInt64, NextDifficulty;
    assert VerifiedAt(p, chain, h);
    if h > 1 {
      NeverZero(p, chain, h - 1);
      assert chain[..h][h - 1] == chain[h - 1];
      if p.interval > 0 && h % p.interval == 0 {
        MultipleIsAbove(h, p.interval);
      }
    }
  }

  /** On every verified chain the miner prepares exactly the difficulty the next block must have. */
  lemma {:induction false} PreparedIsDemanded(p: PoW, chain: seq<Header>)
    requires Verified(p, chain) && p.initial > 0
    ensures Prepared(p, chain) == Demanded(p, chain)
  {
    if p.interval <= 0 && |chain| > 1 {
      FixedStaysInitial(p, chain, |chain| - 1);
    }
  }

  /** So mining on is always verified: the chain with the prepared block is verified too. */
  lemma {:induction false} PreparedExtends(p: PoW, chain: seq<Header>, header: Header)
    requires Verified(p, chain) && p.initial > 0 && Prepared(p, chain) == Some(header.difficulty) && |chain| > 0
    ensures Verified(p, chain + [header])
  {
    PreparedIsDemanded(p, chain);
    var all := chain + [header];
    forall h | 1 <= h < |all|
      ensures VerifiedAt(p, all, h)
    {
      if h < |chain| {
        assert VerifiedAt(p, chain, h);
        assert all[..h] == chain[..h];
      } else {
        assert all[..h] == chain;
      }
    }
  }
}
