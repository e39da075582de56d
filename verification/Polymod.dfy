/** The bech32 checksum (pkg/types/bech32.go): the polymod is linear over exclusive or, so the six
    symbols it creates are the only ones it accepts. */
module Polymod {
  import opened Primitives

  type Five = x: int | 0 <= x < 32

  // Each word operation has its own function, so that proofs can use its laws without its bits.
  function Xor(a: bv32, b: bv32): bv32 { a ^ b }
  function Shifted(chk: bv32): bv32 { (chk & 0x1ff_ffff) << 5 }
  function Top(chk: bv32): bv32 { chk >> 25 }
  function Word(v: Byte): bv32 { v as bv32 }

  function Bit(top: bv32, i: nat): bv32
    requires i < 5
  {
    if i == 0 then top & 1 else if i == 1 then (top >> 1) & 1 else if i == 2 then (top >> 2) & 1
    else if i == 3 then (top >> 3) & 1 else (top >> 4) & 1
  }

  const GEN: seq<bv32> := [0x3b6a_57b2, 0x2650_8e6d, 0x1ea1_19fa, 0x3d42_33dd, 0x2a14_62b3]

  function Tap(bit: bv32, g: bv32): bv32 {
    if bit == 1 then g else 0
  }

  /** The generator words selected by the first n bits of `top`. */
  function Feedback(top: bv32, n: nat): bv32
    requires n <= 5
  {
    if n == 0 then 0 else Xor(Feedback(top, n - 1), Tap(Bit(top, n - 1), GEN[n - 1]))
  }

  function Step(chk: bv32, v: bv32): bv32 {
    Xor(Xor(Shifted(chk), v), Feedback(Top(chk), 5))
  }

  /** The register after feeding it some values. */
  function Run(chk: bv32, values: seq<Byte>): bv32 {
    if |values| == 0 then chk else Step(Run(chk, values[..|values| - 1]), Word(values[|values| - 1]))
  }

  /** bech32Polymod. */
  method ComputePolymod(values: seq<Byte>) returns (chk: bv32)
    ensures chk == Run(1, values)
  {
    hide Feedback, Xor, Shifted, Top, Word, Bit, Tap;
    chk := 1;
    for k := 0 to |values|
      invariant chk == Run(1, values[..k])
    {
      RunStep(1, values, k);
      var top := Top(chk);
      chk := Xor(Shifted(chk), Word(values[k]));
      ghost var base := chk;
      NoFeedback(top);
      XorZero(base);
      for i := 0 to 5
        invariant chk == Xor(base, Feedback(top, i))
      {
        FeedbackStep(top, i);
        XorAssociates(base, Feedback(top, i), Tap(Bit(top, i), GEN[i]));
        TapIs(Bit(top, i), GEN[i]);
        if Bit(top, i) == 1 {
          chk := Xor(chk, GEN[i]);
        } else {
          XorZero(chk);
        }
      }
    }
    assert values[..|values|] == values;
  }

  lemma RunStep(chk: bv32, values: seq<Byte>, k: nat)
    requires k < |values|
    ensures Run(chk, values[..k + 1]) == Step(Run(chk, values[..k]), Word(values[k]))
    ensures Run(chk, values[..0]) == chk
  {
    hide Step;
    assert values[..k + 1][..k] == values[..k];
  }

  lemma NoFeedback(top: bv32)
    ensures Feedback(top, 0) == 0
  {
  }

  lemma FeedbackStep(top: bv32, i: nat)
    requires i < 5
    ensures Feedback(top, i + 1) == Xor(Feedback(top, i), Tap(Bit(top, i), GEN[i]))
  {
  }

  lemma TapIs(bit: bv32, g: bv32)
    ensures Tap(bit, g) == if bit == 1 then g else 0
  {
  }

  // ---------------------------------------------------------------- exclusive or

  lemma XorZero(a: bv32)
    ensures Xor(a, 0) == a && Xor(0, a) == a && Xor(a, a) == 0
  {
  }

  lemma XorAssociates(a: bv32, b: bv32, c: bv32)
    ensures Xor(Xor(a, b), c) == Xor(a, Xor(b, c))
  {
  }

  lemma XorCommutes(a: bv32, b: bv32)
    ensures Xor(a, b) == Xor(b, a)
  {
  }

  lemma XorSwap(a: bv32, b: bv32, c: bv32, d: bv32)
    ensures Xor(Xor(a, b), Xor(c, d)) == Xor(Xor(a, c), Xor(b, d))
  {
    hide Xor;
    XorAssociates(a, b, Xor(c, d));
    XorAssociates(b, c, d);
    XorCommutes(b, c);
    XorAssociates(c, b, d);
    XorAssociates(a, c, Xor(b, d));
  }

  lemma XorSolves(a: bv32, b: bv32)
    ensures Xor(a, b) == 1 <==> b == Xor(a, 1)
  {
    hide Xor;
    XorAssociates(a, a, b);
    XorAssociates(a, a, 1);
    XorZero(a);
    XorZero(b);
    XorZero(1);
  }

  // ---------------------------------------------------------------- linearity

  lemma BitsXor(a: bv32, b: bv32)
    ensures (a ^ b) & 1 == (a & 1) ^ (b & 1)
    ensures ((a ^ b) >> 1) & 1 == ((a >> 1) & 1) ^ ((b >> 1) & 1)
    ensures ((a ^ b) >> 2) & 1 == ((a >> 2) & 1) ^ ((b >> 2) & 1)
    ensures ((a ^ b) >> 3) & 1 == ((a >> 3) & 1) ^ ((b >> 3) & 1)
    ensures ((a ^ b) >> 4) & 1 == ((a >> 4) & 1) ^ ((b >> 4) & 1)
  {
  }

  lemma BitXor(a: bv32, b: bv32, i: nat)
    requires i < 5
    ensures Bit(Xor(a, b), i) == Xor(Bit(a, i), Bit(b, i))
  {
    BitsXor(a, b);
    if i == 0 {
    } else if i == 1 {
    } else if i == 2 {
    } else if i == 3 {
    } else {
    }
  }

  lemma BitsSmall(a: bv32)
    ensures a & 1 <= 1 && (a >> 1) & 1 <= 1 && (a >> 2) & 1 <= 1 && (a >> 3) & 1 <= 1 && (a >> 4) & 1 <= 1
  {
  }

  lemma OneOrZero(p: bv32)
    requires p <= 1
    ensures p == 0 || p == 1
  {
  }

  lemma BitIsBinary(a: bv32, i: nat)
    requires i < 5
    ensures Bit(a, i) == 0 || Bit(a, i) == 1
  {
    BitsSmall(a);
    OneOrZero(Bit(a, i));
  }

  lemma TapXor(p: bv32, q: bv32, g: bv32)
    requires (p == 0 || p == 1) && (q == 0 || q == 1)
    ensures Tap(Xor(p, q), g) == Xor(Tap(p, g), Tap(q, g))
  {
    XorZero(g);
    XorZero(p);
    XorZero(q);
  }

  lemma {:induction false} FeedbackXor(a: bv32, b: bv32, n: nat)
    requires n <= 5
    ensures Feedback(Xor(a, b), n) == Xor(Feedback(a, n), Feedback(b, n))
  {
    hide Tap, Bit, Xor;
    if n == 0 {
      XorZero(0);
    } else {
      var g := GEN[n - 1];
      FeedbackXor(a, b, n - 1);
      BitIsBinary(a, n - 1);
      BitIsBinary(b, n - 1);
      BitXor(a, b, n - 1);
      TapXor(Bit(a, n - 1), Bit(b, n - 1), g);
      XorSwap(Feedback(a, n - 1), Feedback(b, n - 1), Tap(Bit(a, n - 1), g), Tap(Bit(b, n - 1), g));
    }
  }

  lemma ShiftXor(a: bv32, b: bv32)
    ensures Shifted(Xor(a, b)) == Xor(Shifted(a), Shifted(b))
    ensures Top(Xor(a, b)) == Xor(Top(a), Top(b))
  {
  }

  /** One step of the polymod is linear. */
  lemma StepXor(a: bv32, b: bv32, u: bv32, v: bv32)
    ensures Step(Xor(a, b), Xor(u, v)) == Xor(Step(a, u), Step(b, v))
  {
    hide Feedback, Shifted, Top, Xor;
    ShiftXor(a, b);
    FeedbackXor(Top(a), Top(b), 5);
    XorSwap(Shifted(a), Shifted(b), u, v);
    XorSwap(Xor(Shifted(a), u), Xor(Shifted(b), v), Feedback(Top(a), 5), Feedback(Top(b), 5));
  }

  function Zeros(n: nat): seq<Byte> {
    seq(n, i => 0)
  }

  lemma WordZero()
    ensures Word(0) == 0
  {
  }

  /** Feeding symbols into a register is feeding zeros into it, plus feeding them into an empty one. */
  lemma {:induction false} RunXor(c: bv32, d: seq<Byte>)
    ensures Run(c, d) == Xor(Run(c, Zeros(|d|)), Run(0, d))
  {
    hide Step, Xor, Word;
    if |d| == 0 {
      XorZero(c);
    } else {
      var n := |d| - 1;
      assert Zeros(|d|)[..n] == Zeros(n);
      RunXor(c, d[..n]);
      WordZero();
      XorZero(Word(d[n]));
      StepXor(Run(c, Zeros(n)), Run(0, d[..n]), 0, Word(d[n]));
    }
  }

  // ---------------------------------------------------------------- six symbols fill the register

  lemma NothingSelected(i: nat)
    requires i < 5
    ensures Bit(0, i) == 0
  {
  }

  lemma {:induction false} NoFeedbackFromZero(n: nat)
    requires n <= 5
    ensures Feedback(0, n) == 0
  {
    if n > 0 {
      NoFeedbackFromZero(n - 1);
      NothingSelected(n - 1);
      XorZero(0);
    }
  }

  predicate Small(chk: bv32) { chk < 0x200_0000 }
  predicate Narrow(v: bv32) { v < 32 }

  function Append(chk: bv32, v: bv32): bv32 {
    (chk << 5) | v
  }

  lemma ShiftAppends(chk: bv32, v: bv32)
    requires chk < 0x200_0000 && v < 32
    ensures ((chk & 0x1ff_ffff) << 5) ^ v == (chk << 5) | v
    ensures chk >> 25 == 0
  {
  }

  /** While the top bits are clear a step only shifts. */
  lemma StepShifts(chk: bv32, v: bv32)
    requires Small(chk) && Narrow(v)
    ensures Step(chk, v) == Append(chk, v)
  {
    hide Feedback;
    ShiftAppends(chk, v);
    NoFeedbackFromZero(5);
    XorZero(Xor(Shifted(chk), v));
  }

  function Pack(d: seq<bv32>): bv32
    requires |d| == 6
  {
    Append(Append(Append(Append(Append(d[0], d[1]), d[2]), d[3]), d[4]), d[5])
  }

  lemma RegisterSmall(d0: bv32, d1: bv32, d2: bv32, d3: bv32, d4: bv32)
    requires d0 < 32 && d1 < 32 && d2 < 32 && d3 < 32 && d4 < 32
    ensures d0 < 0x200_0000 && (d0 << 5) | d1 < 0x200_0000 && (((d0 << 5) | d1) << 5) | d2 < 0x200_0000
    ensures (((((d0 << 5) | d1) << 5) | d2) << 5) | d3 < 0x200_0000
    ensures (((((((d0 << 5) | d1) << 5) | d2) << 5) | d3) << 5) | d4 < 0x200_0000
    ensures (0 << 5) | d0 == d0
  {
  }

  lemma AppendSmall(d0: bv32, d1: bv32, d2: bv32, d3: bv32, d4: bv32)
    requires Narrow(d0) && Narrow(d1) && Narrow(d2) && Narrow(d3) && Narrow(d4)
    ensures Small(d0) && Small(Append(d0, d1)) && Small(Append(Append(d0, d1), d2))
    ensures Small(Append(Append(Append(d0, d1), d2), d3)) && Small(Append(Append(Append(Append(d0, d1), d2), d3), d4))
    ensures Append(0, d0) == d0 && Small(0)
  {
    RegisterSmall(d0, d1, d2, d3, d4);
  }

  lemma WordSmall(v: Byte)
    requires v < 32
    ensures Narrow(Word(v))
  {
  }

  function Words(d: seq<Byte>): (r: seq<bv32>)
    ensures |r| == |d| && forall i :: 0 <= i < |d| ==> r[i] == Word(d[i])
  {
    seq(|d|, i requires 0 <= i < |d| => Word(d[i]))
  }

  /** An empty register just collects six symbols. */
  lemma {:induction false} RunPacks(d: seq<Byte>)
    requires |d| == 6 && forall i :: 0 <= i < 6 ==> d[i] < 32
    ensures Run(0, d) == Pack(Words(d))
  {
    hide Run, Step, Word, Append, Small, Narrow;
    var w := Words(d);
    forall i | 0 <= i < 6
      ensures Narrow(w[i])
    {
      WordSmall(d[i]);
    }
    AppendSmall(w[0], w[1], w[2], w[3], w[4]);
    RunStep(0, d, 0);
    StepShifts(0, w[0]);
    RunStep(0, d, 1);
    StepShifts(w[0], w[1]);
    RunStep(0, d, 2);
    StepShifts(Append(w[0], w[1]), w[2]);
    RunStep(0, d, 3);
    StepShifts(Append(Append(w[0], w[1]), w[2]), w[3]);
    RunStep(0, d, 4);
    StepShifts(Append(Append(Append(w[0], w[1]), w[2]), w[3]), w[4]);
    RunStep(0, d, 5);
    StepShifts(Append(Append(Append(Append(w[0], w[1]), w[2]), w[3]), w[4]), w[5]);
    assert d[..6] == d;
  }

  /** Symbol i of a 30-bit word. */
  function DigitAt(p: bv32, i: nat): bv32
    requires i < 6
  {
    if i == 0 then (p >> 25) & 31 else if i == 1 then (p >> 20) & 31 else if i == 2 then (p >> 15) & 31
    else if i == 3 then (p >> 10) & 31 else if i == 4 then (p >> 5) & 31 else p & 31
  }

  lemma DigitsSmall(p: bv32)
    ensures (p >> 25) & 31 < 32 && (p >> 20) & 31 < 32 && (p >> 15) & 31 < 32 && (p >> 10) & 31 < 32 && (p >> 5) & 31 < 32 && p & 31 < 32
  {
  }

  lemma RegisterOfDigits(p: bv32)
    requires p < 0x4000_0000
    ensures (((((((((((p >> 25) & 31) << 5) | ((p >> 20) & 31)) << 5) | ((p >> 15) & 31)) << 5) | ((p >> 10) & 31)) << 5) | ((p >> 5) & 31)) << 5) | (p & 31) == p
  {
  }

  predicate Fits30(p: bv32) { p < 0x4000_0000 }

  lemma PackOfDigits(p: bv32)
    requires Fits30(p)
    ensures Pack([DigitAt(p, 0), DigitAt(p, 1), DigitAt(p, 2), DigitAt(p, 3), DigitAt(p, 4), DigitAt(p, 5)]) == p
  {
    RegisterOfDigits(p);
  }

  lemma DigitsOfRegister(d0: bv32, d1: bv32, d2: bv32, d3: bv32, d4: bv32, d5: bv32)
    requires d0 < 32 && d1 < 32 && d2 < 32 && d3 < 32 && d4 < 32 && d5 < 32
    ensures var p := (((((((((d0 << 5) | d1) << 5) | d2) << 5) | d3) << 5) | d4) << 5) | d5;
            && (p >> 25) & 31 == d0 && (p >> 20) & 31 == d1 && (p >> 15) & 31 == d2
            && (p >> 10) & 31 == d3 && (p >> 5) & 31 == d4 && p & 31 == d5
  {
  }

  lemma DigitsOfPack(w: seq<bv32>)
    requires |w| == 6 && forall i :: 0 <= i < 6 ==> Narrow(w[i])
    ensures var p := Pack(w);
            && DigitAt(p, 0) == w[0] && DigitAt(p, 1) == w[1] && DigitAt(p, 2) == w[2]
            && DigitAt(p, 3) == w[3] && DigitAt(p, 4) == w[4] && DigitAt(p, 5) == w[5]
  {
    DigitsOfRegister(w[0], w[1], w[2], w[3], w[4], w[5]);
  }

  function Digit(p: bv32, i: nat): Five
    requires i < 6
  {
    DigitsSmall(p);
    DigitAt(p, i) as int
  }

  function Digits(p: bv32): (r: seq<Byte>)
    ensures |r| == 6 && forall i :: 0 <= i < 6 ==> r[i] == Digit(p, i)
  {
    seq(6, i requires 0 <= i < 6 => Digit(p, i))
  }

  lemma WordOfDigit(p: bv32, i: nat)
    requires i < 6
    ensures Word(Digit(p, i)) == DigitAt(p, i)
  {
    DigitsSmall(p);
  }

  function Value(w: bv32): int { w as int }

  lemma ValueOfWord(v: Byte)
    requires v < 32
    ensures Value(Word(v)) == v
  {
  }

  /** Packing and taking symbols are inverse to each other. */
  lemma {:induction false} PackIffDigits(p: bv32, d: seq<Byte>)
    requires Fits30(p) && |d| == 6 && forall i :: 0 <= i < 6 ==> d[i] < 32
    ensures Pack(Words(d)) == p <==> d == Digits(p)
  {
    hide Word, Digit, DigitAt, Pack, Narrow, Value, Fits30;
    var w := Words(d);
    forall i | 0 <= i < 6
      ensures Narrow(w[i]) && Value(w[i]) == d[i]
      ensures Word(Digit(p, i)) == DigitAt(p, i) && Value(DigitAt(p, i)) == Digit(p, i)
    {
      WordSmall(d[i]);
      ValueOfWord(d[i]);
      WordOfDigit(p, i);
      ValueOfWord(Digit(p, i));
    }
    PackOfDigits(p);
    DigitsOfPack(w);
    if d == Digits(p) {
      assert w == [DigitAt(p, 0), DigitAt(p, 1), DigitAt(p, 2), DigitAt(p, 3), DigitAt(p, 4), DigitAt(p, 5)];
    }
    if Pack(w) == p {
      assert forall i :: 0 <= i < 6 ==> w[i] == DigitAt(p, i);
    }
  }

  lemma StepBelow(chk: bv32, v: bv32, f: bv32)
    requires Narrow(v) && Fits30(f)
    ensures Fits30(Xor(Xor(Shifted(chk), v), f))
  {
  }

  lemma XorBelow(a: bv32, b: bv32)
    requires Fits30(a) && Fits30(b)
    ensures Fits30(Xor(a, b))
  {
  }

  lemma GeneratorsBelow(i: nat)
    requires i < 5
    ensures Fits30(GEN[i]) && Fits30(0)
  {
  }

  lemma {:induction false} FeedbackBelow(top: bv32, n: nat)
    requires n <= 5
    ensures Fits30(Feedback(top, n))
  {
    hide Xor, Bit;
    if n > 0 {
      FeedbackBelow(top, n - 1);
      GeneratorsBelow(n - 1);
      XorBelow(Feedback(top, n - 1), Tap(Bit(top, n - 1), GEN[n - 1]));
    }
  }

  lemma {:induction false} RunBelow(c: bv32, values: seq<Byte>)
    requires |values| > 0 && values[|values| - 1] < 32
    ensures Fits30(Run(c, values))
  {
    hide Xor, Shifted, Top, Word, Feedback, Narrow, Fits30;
    var n := |values| - 1;
    WordSmall(values[n]);
    var chk := Run(c, values[..n]);
    FeedbackBelow(Top(chk), 5);
    StepBelow(chk, Word(values[n]), Feedback(Top(chk), 5));
  }

  /** After any symbols, exactly one list of six more brings the register to 1. */
  lemma {:induction false} OneChecksum(c: bv32, d: seq<Byte>)
    requires |d| == 6 && forall i :: 0 <= i < 6 ==> d[i] < 32
    ensures Run(c, d) == 1 <==> d == Digits(Xor(Run(c, Zeros(6)), 1))
  {
    hide Run, Xor, Pack, Digits, Zeros, Fits30;
    RunXor(c, d);
    RunPacks(d);
    XorSolves(Run(c, Zeros(6)), Run(0, d));
    ZerosSmall();
    RunBelow(c, Zeros(6));
    OneBelow();
    XorBelow(Run(c, Zeros(6)), 1);
    PackIffDigits(Xor(Run(c, Zeros(6)), 1), d);
  }

  lemma ZerosSmall()
    ensures |Zeros(6)| == 6 && Zeros(6)[5] == 0
  {
  }

  lemma OneBelow()
    ensures Fits30(1)
  {
  }

  lemma {:induction false} RunConcat(c: bv32, a: seq<Byte>, b: seq<Byte>)
    ensures Run(c, a + b) == Run(Run(c, a), b)
    decreases |b|
  {
    hide Step;
    if |b| == 0 {
      assert a + b == a;
    } else {
      var n := |b| - 1;
      assert (a + b)[..|a| + n] == a + b[..n];
      RunConcat(c, a, b[..n]);
    }
  }
}
