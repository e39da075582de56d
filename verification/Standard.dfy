/** The checksum against the Bech32 section of BIP-173: a step of the register is division by the generator
    polynomial over GF(32), and the shortest valid string of the standard comes out. */
module Standard {
  import opened Primitives
  import opened Polymod
  import opened Bech32

  // ---------------------------------------------------------------- GF(32)

  /** Times the element 2, whose fifth power is 9: the field is built on x^5 + x^3 + 1. */
  function Doubled(a: bv32): bv32 {
    ((a << 1) & 31) ^ (if a & 16 == 16 then 9 else 0)
  }

  /** The product in GF(32); the sum is exclusive or. */
  function Product(a: bv32, b: bv32): bv32 {
    (if b & 1 == 1 then a else 0) ^
    (if b & 2 == 2 then Doubled(a) else 0) ^
    (if b & 4 == 4 then Doubled(Doubled(a)) else 0) ^
    (if b & 8 == 8 then Doubled(Doubled(Doubled(a))) else 0) ^
    (if b & 16 == 16 then Doubled(Doubled(Doubled(Doubled(a)))) else 0)
  }

  /** The coefficients of the generator below x^6. */
  const GENERATOR: seq<bv32> := [29, 22, 20, 21, 29, 18]

  /** Five generator words, each the one before it times 2. */
  lemma FeedbackIs(top: bv32)
    ensures Feedback(top, 5) ==
            (if top & 1 == 1 then 0x3b6a_57b2 else 0) ^ (if top & 2 == 2 then 0x2650_8e6d else 0) ^ (if top & 4 == 4 then 0x1ea1_19fa else 0) ^
            (if top & 8 == 8 then 0x3d42_33dd else 0) ^ (if top & 16 == 16 then 0x2a14_62b3 else 0)
  {
    assert Feedback(top, 0) == 0;
    assert Feedback(top, 1) == Tap(Bit(top, 0), GEN[0]);
    assert Feedback(top, 2) == Xor(Feedback(top, 1), Tap(Bit(top, 1), GEN[1]));
    assert Feedback(top, 3) == Xor(Feedback(top, 2), Tap(Bit(top, 2), GEN[2]));
    assert Feedback(top, 4) == Xor(Feedback(top, 3), Tap(Bit(top, 3), GEN[3]));
    assert Feedback(top, 5) == Xor(Feedback(top, 4), Tap(Bit(top, 4), GEN[4]));
  }

  lemma HighProducts(top: bv32)
    requires Narrow(top)
    ensures DigitAt(Feedback(top, 5), 0) == Product(29, top) && DigitAt(Feedback(top, 5), 1) == Product(22, top) && DigitAt(Feedback(top, 5), 2) == Product(20, top)
  {
    FeedbackIs(top);
    hide Feedback;
  }

  lemma LowProducts(top: bv32)
    requires Narrow(top)
    ensures DigitAt(Feedback(top, 5), 3) == Product(21, top) && DigitAt(Feedback(top, 5), 4) == Product(29, top) && DigitAt(Feedback(top, 5), 5) == Product(18, top)
  {
    FeedbackIs(top);
    hide Feedback;
  }

  /** The feedback is the leading symbol times the generator, symbol by symbol. */
  lemma {:induction false} FeedbackIsProduct(top: bv32, i: nat)
    requires Narrow(top) && i < 6
    ensures DigitAt(Feedback(top, 5), i) == Product(GENERATOR[i], top)
  {
    hide Feedback, Product, DigitAt, Narrow;
    if i < 3 {
      HighProducts(top);
    } else {
      LowProducts(top);
    }
  }

  lemma ShiftedDigit(chk: bv32, v: bv32, i: nat)
    requires Fits30(chk) && Narrow(v) && i < 6
    ensures DigitAt(Xor(Shifted(chk), v), i) == if i < 5 then DigitAt(chk, i + 1) else v
  {
  }

  lemma DigitIs(p: bv32)
    ensures DigitAt(p, 0) == (p >> 25) & 31 && DigitAt(p, 1) == (p >> 20) & 31 && DigitAt(p, 2) == (p >> 15) & 31
    ensures DigitAt(p, 3) == (p >> 10) & 31 && DigitAt(p, 4) == (p >> 5) & 31 && DigitAt(p, 5) == p & 31
  {
  }

  lemma ShiftsXor(a: bv32, b: bv32)
    ensures ((a ^ b) >> 25) & 31 == ((a >> 25) & 31) ^ ((b >> 25) & 31) && ((a ^ b) >> 20) & 31 == ((a >> 20) & 31) ^ ((b >> 20) & 31)
    ensures ((a ^ b) >> 15) & 31 == ((a >> 15) & 31) ^ ((b >> 15) & 31) && ((a ^ b) >> 10) & 31 == ((a >> 10) & 31) ^ ((b >> 10) & 31)
    ensures ((a ^ b) >> 5) & 31 == ((a >> 5) & 31) ^ ((b >> 5) & 31) && (a ^ b) & 31 == (a & 31) ^ (b & 31)
  {
  }

  lemma HighXor(a: bv32, b: bv32)
    ensures DigitAt(Xor(a, b), 0) == Xor(DigitAt(a, 0), DigitAt(b, 0)) && DigitAt(Xor(a, b), 1) == Xor(DigitAt(a, 1), DigitAt(b, 1))
    ensures DigitAt(Xor(a, b), 2) == Xor(DigitAt(a, 2), DigitAt(b, 2))
  {
    hide DigitAt;
    DigitIs(a);
    DigitIs(b);
    DigitIs(a ^ b);
    ShiftsXor(a, b);
  }

  lemma LowXor(a: bv32, b: bv32)
    ensures DigitAt(Xor(a, b), 3) == Xor(DigitAt(a, 3), DigitAt(b, 3)) && DigitAt(Xor(a, b), 4) == Xor(DigitAt(a, 4), DigitAt(b, 4))
    ensures DigitAt(Xor(a, b), 5) == Xor(DigitAt(a, 5), DigitAt(b, 5))
  {
    hide DigitAt;
    DigitIs(a);
    DigitIs(b);
    DigitIs(a ^ b);
    ShiftsXor(a, b);
  }

  lemma {:induction false} DigitXor(a: bv32, b: bv32, i: nat)
    requires i < 6
    ensures DigitAt(Xor(a, b), i) == Xor(DigitAt(a, i), DigitAt(b, i))
  {
    hide DigitAt, Xor;
    if i < 3 {
      HighXor(a, b);
    } else {
      LowXor(a, b);
    }
  }

  lemma TopNarrow(chk: bv32)
    requires Fits30(chk)
    ensures Narrow(Top(chk)) && Top(chk) == DigitAt(chk, 0)
  {
  }

  /** One step of the register, a polynomial of six symbols: multiply by x, add the new symbol, and reduce
      modulo the generator. */
  lemma {:induction false} StepIsReduction(chk: bv32, v: bv32, i: nat)
    requires Fits30(chk) && Narrow(v) && i < 6
    ensures DigitAt(Step(chk, v), i) == Xor(if i < 5 then DigitAt(chk, i + 1) else v, Product(GENERATOR[i], DigitAt(chk, 0)))
  {
    hide Xor, Shifted, Feedback, DigitAt, Product;
    TopNarrow(chk);
    DigitXor(Xor(Shifted(chk), v), Feedback(Top(chk), 5), i);
    ShiftedDigit(chk, v, i);
    FeedbackIsProduct(Top(chk), i);
  }

  // ---------------------------------------------------------------- the character table

  /** The table of the standard, in its rows of eight. */
  const TABLE: seq<Text> := ["qpzry9x8", "gf2tvdw0", "s3jn54kh", "ce6mua7l"]

  lemma {:induction false} SymbolsByTable(values: seq<Byte>, i: nat)
    requires i < |values| && forall j :: 0 <= j < |values| ==> values[j] < 32
    ensures Chars(values)[i] == TABLE[values[i] / 8][values[i] % 8]
  {
    var rows := TABLE[0] + TABLE[1] + TABLE[2] + TABLE[3];
    assert rows == CHARSET;
  }

  // ---------------------------------------------------------------- a valid string of the standard

  lemma RunOne(c: bv32, values: seq<Byte>, v: Byte)
    ensures Run(c, values + [v]) == Step(Run(c, values), Word(v)) && Run(c, []) == c
  {
    hide Step;
    assert (values + [v])[..|values|] == values;
  }

  lemma StepIs(c: bv32, v: bv32)
    ensures Step(c, v) == ((c & 0x1ff_ffff) << 5) ^ v ^ Feedback(c >> 25, 5)
  {
    hide Feedback;
  }

  lemma SmallWords()
    ensures Word(0) == 0 && Word(1) == 1 && Word(3) == 3
  {
  }

  lemma FirstSteps()
    ensures Step(1, 3) == 0x23 && Step(0x23, 0) == 0x460 && Step(0x460, 1) == 0x8c01 && Step(0x8c01, 0) == 0x11_8020
  {
    StepIs(1, 3);
    StepIs(0x23, 0);
    StepIs(0x460, 1);
    StepIs(0x8c01, 0);
    FeedbackIs(0);
    hide Step, Feedback;
  }

  lemma LastSteps()
    ensures Step(0x11_8020, 0) == 0x230_0400 && Step(0x230_0400, 0) == 0x3d6a_d7b2 && Step(0x3d6a_d7b2, 0) == 0x2fd_30b9
    ensures Step(0x2fd_30b9, 0) == 0x24cc_4092 && Step(0x24cc_4092, 0) == 0x15cc_fe9e
  {
    StepIs(0x11_8020, 0);
    StepIs(0x230_0400, 0);
    StepIs(0x3d6a_d7b2, 0);
    StepIs(0x2fd_30b9, 0);
    StepIs(0x24cc_4092, 0);
    FeedbackIs(0);
    FeedbackIs(1);
    FeedbackIs(30);
    FeedbackIs(18);
    hide Step, Feedback;
  }

  lemma Feed(values: seq<Byte>, v: Byte, more: seq<Byte>, r: bv32)
    requires Step(Run(1, values), Word(v)) == r && more == values + [v]
    ensures Run(1, more) == r
  {
    RunOne(1, values, v);
  }

  lemma {:induction false} VectorStarts()
    ensures Run(1, [3, 0, 1, 0]) == 0x11_8020
  {
    RunOne(1, [], 0);
    hide Run, Step, Word;
    SmallWords();
    FirstSteps();
    Feed([], 3, [3], 0x23);
    Feed([3], 0, [3, 0], 0x460);
    Feed([3, 0], 1, [3, 0, 1], 0x8c01);
    Feed([3, 0, 1], 0, [3, 0, 1, 0], 0x11_8020);
  }

  lemma {:induction false} VectorRun()
    ensures Run(1, [3, 0, 1] + Zeros(6)) == 0x15cc_fe9e
  {
    hide Run, Step, Word;
    SmallWords();
    VectorStarts();
    LastSteps();
    Feed([3, 0, 1, 0], 0, [3, 0, 1, 0, 0], 0x230_0400);
    Feed([3, 0, 1, 0, 0], 0, [3, 0, 1, 0, 0, 0], 0x3d6a_d7b2);
    Feed([3, 0, 1, 0, 0, 0], 0, [3, 0, 1, 0, 0, 0, 0], 0x2fd_30b9);
    Feed([3, 0, 1, 0, 0, 0, 0], 0, [3, 0, 1, 0, 0, 0, 0, 0], 0x24cc_4092);
    Feed([3, 0, 1, 0, 0, 0, 0, 0], 0, [3, 0, 1, 0, 0, 0, 0, 0, 0], 0x15cc_fe9e);
    assert [3, 0, 1] + Zeros(6) == [3, 0, 1, 0, 0, 0, 0, 0, 0];
  }

  lemma VectorDigits()
    ensures Digits(Xor(0x15cc_fe9e, 1)) == [10, 28, 25, 31, 20, 31]
  {
    assert Xor(0x15cc_fe9e, 1) == 0x15cc_fe9f;
    var p: bv32 := 0x15cc_fe9f;
    assert DigitAt(p, 0) == 10 && DigitAt(p, 1) == 28 && DigitAt(p, 2) == 25 && DigitAt(p, 3) == 31 && DigitAt(p, 4) == 20 && DigitAt(p, 5) == 31;
    hide DigitAt;
    assert Digits(p)[0] == 10 && Digits(p)[1] == 28 && Digits(p)[2] == 25 && Digits(p)[3] == 31 && Digits(p)[4] == 20 && Digits(p)[5] == 31;
  }

  lemma {:induction false} VectorChecksum()
    ensures Checksum("a", []) == [10, 28, 25, 31, 20, 31]
  {
    hide Run, Step, Digits, Xor;
    assert HrpExpand("a") + [] == [3, 0, 1];
    RunConcat(1, [3, 0, 1], Zeros(6));
    VectorRun();
    VectorDigits();
  }

  /** The first valid string of the standard, in lower case: the part "a" and no data. */
  method ShortestVector() returns (s: Option<Text>)
    ensures s == Some("a12uel5l")
  {
    s := Encode("a", []);
    VectorIsEncoding();
    if s.Some? {
      EncodingDetermined("a", [], s.value, "a12uel5l");
    }
  }

  lemma VectorChars()
    ensures Chars([10, 28, 25, 31, 20, 31]) == "2uel5l"
  {
    var c := Chars([10, 28, 25, 31, 20, 31]);
    assert c[0] == CHARSET[10] && c[1] == CHARSET[28] && c[2] == CHARSET[25] && c[3] == CHARSET[31] && c[4] == CHARSET[20] && c[5] == CHARSET[31];
  }

  lemma VectorAssembled()
    ensures Assemble("a", [10, 28, 25, 31, 20, 31]) == "a12uel5l"
  {
    VectorChars();
    hide Chars;
  }

  lemma {:induction false} VectorIsEncoding()
    ensures IsEncoding("a", [], "a12uel5l") && ValidHrp("a")
  {
    hide Checksum, Regrouped, Assemble;
    var none: seq<Byte> := [];
    VectorChecksum();
    NothingRegrouped();
    VectorAssembled();
    assert none + Checksum("a", none) == [10, 28, 25, 31, 20, 31];
    assert EncodedAs("a", none, "a12uel5l", none, 0);
  }

  lemma NothingRegrouped()
    ensures Regrouped([], 8, 5, [], 0)
  {
  }
}
