/** Division, powers of two and positional numbers. */
module Arithmetic {

  lemma DivideMeans(x: nat, a: nat, q: int)
    requires a > 0 && q == x / a
    ensures q * a <= x < q * a + a
  {
  }

  lemma MulMonotone(x: nat, y: nat, z: nat)
    requires x <= y
    ensures x * z <= y * z
  {
  }

  lemma {:induction false} DivideBounds(x: nat, a: nat, lower: nat, upper: nat)
    requires a > 0 && lower * a <= x && x < (upper + 1) * a
    ensures lower <= x / a <= upper
  {
    var q := x / a;
    DivideMeans(x, a, q);
    if q < lower {
      MulMonotone(q + 1, lower, a);
    }
    if q > upper {
      MulMonotone(upper + 1, q, a);
    }
  }

  lemma {:induction false} DivideAntitone(x: nat, a: nat, b: nat)
    requires 0 < a <= b
    ensures x / b <= x / a
  {
    DivideMeans(x, b, x / b);
    DivideMeans(x, a, x / a);
    MulMonotone(a, b, x / b);
    assert (x / b) * a <= x;
    DivideBounds(x, a, x / b, x / a);
  }

  lemma {:induction false} DivModUnique(x: nat, a: nat, q: nat, r: nat)
    requires a > 0 && x == q * a + r && r < a
    ensures x / a == q && x % a == r
  {
    assert (q + 1) * a == q * a + a;
    DivideBounds(x, a, q, q);
  }

  lemma DivMod(x: nat, a: nat)
    requires a > 0
    ensures x == (x / a) * a + x % a && 0 <= x % a < a
  {
  }

  lemma ModShift(x: nat, h: nat, m: nat)
    requires m > 0
    ensures (h * m + x) % m == x % m
  {
    DivMod(x, m);
    assert h * m + x == (h + x / m) * m + x % m;
    DivModUnique(h * m + x, m, h + x / m, x % m);
  }

  function Pow2(k: nat): (r: nat)
    ensures r > 0
  {
    if k == 0 then 1 else 2 * Pow2(k - 1)
  }

  lemma {:induction false} PowAdd(a: nat, b: nat)
    ensures Pow2(a + b) == Pow2(a) * Pow2(b)
    decreases a
  {
    if a > 0 {
      PowAdd(a - 1, b);
      var p, q := Pow2(a - 1), Pow2(b);
      Regroup(2, p, q);
      assert Pow2(a) == 2 * p && a - 1 + b == a + b - 1;
    }
  }

  lemma Distribute(a: int, b: int, c: int)
    ensures (a + b) * c == a * c + b * c
  {
  }

  lemma Regroup(a: int, b: int, c: int)
    ensures (a * b) * c == a * (b * c) == (a * c) * b
  {
  }

  lemma {:induction false} TwoLevels(pj: nat, pk: nat, q: nat, r2: nat, r: nat)
    requires r2 < pk && r < pj
    ensures (q * pk + r2) * pj + r == q * (pj * pk) + (r2 * pj + r)
    ensures r2 * pj + r < pj * pk
  {
    Distribute(q * pk, r2, pj);
    Regroup(q, pk, pj);
    MulMonotone(r2 + 1, pk, pj);
    Distribute(r2, 1, pj);
  }

  /** Dropping j + k bits is dropping j, then k. */
  lemma {:induction false} DivPow(x: nat, j: nat, k: nat)
    ensures x / Pow2(j + k) == (x / Pow2(j)) / Pow2(k)
  {
    PowAdd(j, k);
    var pj, pk := Pow2(j), Pow2(k);
    DivByProduct(x, pj, pk);
  }

  lemma {:induction false} DivByProduct(x: nat, a: nat, b: nat)
    requires a > 0 && b > 0
    ensures a * b > 0 && x / (a * b) == (x / a) / b
  {
    var q, r := x / a, x % a;
    DivMod(x, a);
    var q2, r2 := q / b, q % b;
    DivMod(q, b);
    TwoLevels(a, b, q2, r2, r);
    DivModUnique(x, a * b, q2, r2 * a + r);
  }

  lemma DivShift(k: nat, x: nat, a: nat)
    requires a > 0
    ensures (k * a + x) / a == k + x / a
  {
    DivMod(x, a);
    Distribute(k, x / a, a);
    DivModUnique(k * a + x, a, k + x / a, x % a);
  }

  lemma {:induction false} LowPart(h: nat, acc: nat, pj: nat, m: nat, pt: nat, pu: nat)
    requires pj > 0 && pt > 0 && m == pt * pu
    ensures (((h * m) * pj + acc) / pj) % pt == (acc / pj) % pt
  {
    DivShift(h * m, acc, pj);
    Regroup(h, pu, pt);
    assert h * m == (h * pu) * pt;
    ModShift(acc / pj, h * pu, pt);
  }

  /** Bits j to j + t - 1 of a number are those of its low 32 bits. */
  lemma {:induction false} LowBits(v: nat, acc: nat, j: nat, t: nat)
    requires acc == v % Pow2(32) && j + t <= 32
    ensures (acc / Pow2(j)) % Pow2(t) == (v / Pow2(j)) % Pow2(t)
  {
    hide Pow2;
    var u: nat := 32 - j - t;
    DivMod(v, Pow2(32));
    PowAdd(j, t + u);
    PowAdd(t, u);
    LowBitsOf(v, v / Pow2(32), acc, Pow2(32), Pow2(j), Pow2(t + u), Pow2(t), Pow2(u));
  }

  lemma {:induction false} LowBitsOf(v: nat, h: nat, acc: nat, w: nat, pj: nat, m: nat, pt: nat, pu: nat)
    requires pj > 0 && pt > 0 && w == pj * m && m == pt * pu && v == h * w + acc
    ensures (acc / pj) % pt == (v / pj) % pt
  {
    Regroup(h, m, pj);
    assert h * w == h * (m * pj);
    LowPart(h, acc, pj, m, pt, pu);
  }

  /** Shifting a 32-bit register left and adding low bits loses nothing below bit 32. */
  lemma {:induction false} AppendBits(v: nat, acc: nat, f: nat, b: nat)
    requires acc == v % Pow2(32)
    ensures (acc * f + b) % Pow2(32) == (v * f + b) % Pow2(32)
  {
    hide Pow2;
    ShiftIn(v, Pow2(32), f, b);
  }

  lemma {:induction false} ShiftIn(v: nat, w: nat, f: nat, b: nat)
    requires w > 0
    ensures ((v % w) * f + b) % w == (v * f + b) % w
  {
    DivMod(v, w);
    ShiftedIn(v, v / w, v % w, w, f, b);
  }

  lemma {:induction false} ShiftedIn(v: nat, h: nat, acc: nat, w: nat, f: nat, b: nat)
    requires w > 0 && v == h * w + acc
    ensures (acc * f + b) % w == (v * f + b) % w
  {
    calc {
      v * f + b;
      (h * w + acc) * f + b;
      { Distribute(h * w, acc, f); }
      (h * w) * f + acc * f + b;
      { Regroup(h, w, f); }
      (h * f) * w + (acc * f + b);
    }
    ModShift(acc * f + b, h * f, w);
  }

  // ---------------------------------------------------------------- positional numbers

  /** The number a list of digits spells, most significant first. */
  function Spelled(s: seq<nat>, base: nat): nat {
    if |s| == 0 then 0 else Spelled(s[..|s| - 1], base) * base + s[|s| - 1]
  }

  lemma {:induction false} SpelledStep(s: seq<nat>, base: nat, i: nat)
    requires i < |s|
    ensures Spelled(s[..i + 1], base) == Spelled(s[..i], base) * base + s[i]
  {
    assert s[..i + 1][..i] == s[..i];
  }

  lemma SpelledSnoc(s: seq<nat>, base: nat, d: nat)
    ensures Spelled(s + [d], base) == Spelled(s, base) * base + d
  {
    assert (s + [d])[..|s|] == s;
  }

  /** Lists of the same length that spell the same number are the same. */
  lemma {:induction false} SpelledUnique(a: seq<nat>, b: seq<nat>, base: nat)
    requires base > 0 && |a| == |b| && Spelled(a, base) == Spelled(b, base)
    requires forall i :: 0 <= i < |a| ==> a[i] < base && b[i] < base
    ensures a == b
  {
    if |a| > 0 {
      var n := |a| - 1;
      DivModUnique(Spelled(a, base), base, Spelled(a[..n], base), a[n]);
      DivModUnique(Spelled(b, base), base, Spelled(b[..n], base), b[n]);
      SpelledUnique(a[..n], b[..n], base);
      assert a == a[..n] + [a[n]] && b == b[..n] + [b[n]];
    }
  }
}
