/** Bech32 strings (pkg/types/bech32.go, after BIP-173): encoding, decoding, and that decoding accepts
    exactly the encodings and gives back what was encoded. Strings are ASCII. */
module Bech32 {
  import opened Primitives
  import opened Arithmetic
  import opened Polymod

  type Text = seq<char>

  const CHARSET: Text := "qpzry9x8gf2tvdw0s3jn54khce6mua7l"

  // ---------------------------------------------------------------- regrouping bits

  ghost predicate DigitsBelow(s: seq<Byte>, bound: nat) {
    forall i :: 0 <= i < |s| ==> s[i] < bound
  }

  /** `out` are the bits of `data` in groups of another size, filled up with `extra` zero bits. */
  ghost predicate Regrouped(data: seq<Byte>, fromBits: nat, toBits: nat, out: seq<Byte>, extra: nat) {
    && DigitsBelow(data, Pow2(fromBits)) && DigitsBelow(out, Pow2(toBits))
    && |out| * toBits == |data| * fromBits + extra
    && Spelled(out, Pow2(toBits)) == Spelled(data, Pow2(fromBits)) * Pow2(extra)
  }

  /** What convertBits has done with some of the data: all but the last `bits` bits are written, and
      the 32-bit accumulator still holds those. */
  ghost predicate Converting(data: seq<Byte>, fromBits: nat, toBits: nat, acc: nat, bits: nat, out: seq<Byte>) {
    && DigitsBelow(data, Pow2(fromBits)) && DigitsBelow(out, Pow2(toBits))
    && acc == Spelled(data, Pow2(fromBits)) % Pow2(32)
    && |out| * toBits + bits == |data| * fromBits
    && Spelled(out, Pow2(toBits)) == Spelled(data, Pow2(fromBits)) / Pow2(bits)
  }

  lemma NothingConverted(data: seq<Byte>, fromBits: nat, toBits: nat)
    ensures Converting(data[..0], fromBits, toBits, 0, 0, [])
  {
    hide Pow2;
    PowZero();
    DivModUnique(0, Pow2(32), 0, 0);
    OneDivides(0);
  }

  lemma {:induction false} ReadGroup(data: seq<Byte>, i: nat, fromBits: nat, toBits: nat, acc: nat, bits: nat, out: seq<Byte>)
    requires i < |data| && data[i] < Pow2(fromBits) && Converting(data[..i], fromBits, toBits, acc, bits, out)
    ensures Converting(data[..i + 1], fromBits, toBits, (acc * Pow2(fromBits) + data[i]) % Pow2(32), bits + fromBits, out)
  {
    hide Pow2;
    var f := Pow2(fromBits);
    var v := Spelled(data[..i], f);
    SpelledStep(data, f, i);
    AppendBits(v, acc, f, data[i]);
    DivModUnique(v * f + data[i], f, v, data[i]);
    DivPow(v * f + data[i], fromBits, bits);
    assert |data[..i + 1]| == |data[..i]| + 1;
    Distribute(|data[..i]|, 1, fromBits);
    var more := data[..i + 1];
    forall j | 0 <= j < |more|
      ensures more[j] < f
    {
      if j < i {
        assert data[..i][j] == data[j];
      }
    }
  }

  lemma {:induction false} WriteGroup(data: seq<Byte>, fromBits: nat, toBits: nat, acc: nat, bits: nat, out: seq<Byte>)
    requires Converting(data, fromBits, toBits, acc, bits, out) && toBits <= bits <= 32 && toBits <= 8
    ensures (acc / Pow2(bits - toBits)) % Pow2(toBits) < 256
    ensures Converting(data, fromBits, toBits, acc, bits - toBits, out + [(acc / Pow2(bits - toBits)) % Pow2(toBits)])
  {
    hide Pow2;
    var t := Pow2(toBits);
    var left := bits - toBits;
    var v := Spelled(data, Pow2(fromBits));
    var d := (acc / Pow2(left)) % t;
    PowSmall(toBits);
    LowBits(v, acc, left, toBits);
    DivPow(v, left, toBits);
    DivMod(v / Pow2(left), t);
    SpelledSnoc(out, t, d);
    Distribute(|out|, 1, toBits);
    assert |out + [d]| == |out| + 1;
  }

  lemma PowSmall(k: nat)
    requires k <= 8
    ensures Pow2(k) <= 256
    decreases 8 - k
  {
    if k < 8 {
      PowSmall(k + 1);
      assert Pow2(k + 1) == 2 * Pow2(k);
    } else {
      assert Pow2(8) == 256 by {
        assert Pow2(4) == 16;
        PowAdd(4, 4);
      }
    }
  }

  /** The left-over bits, shifted up and masked, are the last group. */
  lemma {:induction false} PadGroup(data: seq<Byte>, fromBits: nat, toBits: nat, acc: nat, bits: nat, out: seq<Byte>)
    requires Converting(data, fromBits, toBits, acc, bits, out) && 0 < bits < toBits <= 8
    ensures (acc * Pow2(toBits - bits)) % Pow2(toBits) < 256
    ensures Regrouped(data, fromBits, toBits, out + [(acc * Pow2(toBits - bits)) % Pow2(toBits)], toBits - bits)
  {
    hide Pow2;
    var t := Pow2(toBits);
    var v := Spelled(data, Pow2(fromBits));
    var d := (acc * Pow2(toBits - bits)) % t;
    PowSmall(toBits);
    LeftOver(v, acc, bits, toBits);
    SpelledSnoc(out, t, d);
    Distribute(|out|, 1, toBits);
    assert |out + [d]| == |out| + 1;
    PaddedValue(v, bits, toBits);
  }

  lemma {:induction false} PaddedValue(v: nat, bits: nat, toBits: nat)
    requires bits <= toBits
    ensures (v / Pow2(bits)) * Pow2(toBits) + (v % Pow2(bits)) * Pow2(toBits - bits) == v * Pow2(toBits - bits)
  {
    hide Pow2;
    var s := Pow2(bits);
    DivMod(v, s);
    PowAdd(bits, toBits - bits);
    Recombined(v, v / s, v % s, s, Pow2(toBits - bits), Pow2(toBits));
  }

  lemma Recombined(v: nat, q: nat, r: nat, s: nat, p: nat, t: nat)
    requires v == q * s + r && t == s * p
    ensures q * t + r * p == v * p
  {
    Distribute(q * s, r, p);
    Regroup(q, s, p);
  }

  /** The masked left-over is the low `bits` bits of the data, moved to the top of a group. */
  lemma {:induction false} LeftOver(v: nat, acc: nat, bits: nat, toBits: nat)
    requires acc == v % Pow2(32) && bits <= toBits <= 32
    ensures (acc * Pow2(toBits - bits)) % Pow2(toBits) == (v % Pow2(bits)) * Pow2(toBits - bits)
  {
    hide Pow2;
    PowAdd(bits, toBits - bits);
    LowBits(v, acc, 0, bits);
    PowZero();
    OneDivides(acc);
    OneDivides(v);
    ModScales(acc, Pow2(bits), Pow2(toBits - bits), Pow2(toBits));
  }

  lemma {:induction false} ModScales(x: nat, s: nat, p: nat, t: nat)
    requires s > 0 && p > 0 && t == s * p
    ensures t > 0 && (x * p) % t == (x % s) * p
  {
    var q, r := x / s, x % s;
    DivMod(x, s);
    Recombined(x, q, r, s, p, t);
    RemainderScales(r, s, p, t);
    DivModUnique(x * p, t, q, r * p);
  }

  lemma RemainderScales(r: nat, s: nat, p: nat, t: nat)
    requires r < s && p > 0 && t == s * p
    ensures r * p < t
  {
    MulMonotone(r + 1, s, p);
    Distribute(r, 1, p);
  }

  lemma PowZero()
    ensures Pow2(0) == 1
  {
  }

  lemma OneDivides(x: nat)
    ensures x / 1 == x
  {
  }

  lemma MultipleMeans(v: nat, s: nat, p: nat)
    requires s > 0 && p > 0
    ensures (v % s) * p == 0 <==> v == (v / s) * s
  {
    DivMod(v, s);
  }

  /** The loop of convertBits. */
  method ReadGroups(data: seq<Byte>, fromBits: nat, toBits: nat) returns (ok: bool, acc: nat, bits: nat, ret: seq<Byte>)
    requires 0 < fromBits <= 8 && 0 < toBits <= 8
    ensures ok <==> DigitsBelow(data, Pow2(fromBits))
    ensures ok ==> bits < toBits && Converting(data, fromBits, toBits, acc, bits, ret)
  {
    hide *;
    acc, bits, ret := 0, 0, [];
    NothingConverted(data, fromBits, toBits);
    for i := 0 to |data|
      invariant 0 <= bits < toBits
      invariant Converting(data[..i], fromBits, toBits, acc, bits, ret)
    {
      if data[i] >= Pow2(fromBits) {
        DigitTooLarge(data, i, fromBits);
        return false, acc, bits, ret;
      }
      ReadGroup(data, i, fromBits, toBits, acc, bits, ret);
      acc := (acc * Pow2(fromBits) + data[i]) % Pow2(32);
      bits := bits + fromBits;
      while bits >= toBits
        invariant 0 <= bits < toBits + fromBits
        invariant Converting(data[..i + 1], fromBits, toBits, acc, bits, ret)
      {
        WriteGroup(data[..i + 1], fromBits, toBits, acc, bits, ret);
        bits := bits - toBits;
        ret := ret + [(acc / Pow2(bits)) % Pow2(toBits)];
      }
    }
    assert data[..|data|] == data;
    ConvertedDigits(data, fromBits, toBits, acc, bits, ret);
    ok := true;
  }

  lemma ConvertedDigits(data: seq<Byte>, fromBits: nat, toBits: nat, acc: nat, bits: nat, out: seq<Byte>)
    requires Converting(data, fromBits, toBits, acc, bits, out)
    ensures DigitsBelow(data, Pow2(fromBits))
  {
  }

  lemma RegroupedDigits(data: seq<Byte>, fromBits: nat, toBits: nat)
    requires !DigitsBelow(data, Pow2(fromBits))
    ensures forall out, extra :: !Regrouped(out, toBits, fromBits, data, extra)
  {
  }

  /** convertBits. With padding it always regroups; without, it undoes exactly the regroupings whose
      padding is shorter than a source group. */
  method ConvertBits(data: seq<Byte>, fromBits: nat, toBits: nat, pad: bool) returns (r: Option<seq<Byte>>)
    requires 0 < fromBits <= 8 && 0 < toBits <= 8
    ensures !DigitsBelow(data, Pow2(fromBits)) ==> r.None?
    ensures pad && DigitsBelow(data, Pow2(fromBits)) ==> r.Some? && exists extra :: 0 <= extra < toBits && Regrouped(data, fromBits, toBits, r.value, extra)
    ensures !pad && r.Some? ==> exists extra :: 0 <= extra < fromBits && Regrouped(r.value, toBits, fromBits, data, extra)
    ensures !pad && r.None? ==> forall out, extra :: 0 <= extra < fromBits && extra < toBits ==> !Regrouped(out, toBits, fromBits, data, extra)
  {
    hide *;
    var ok, acc, bits, ret := ReadGroups(data, fromBits, toBits);
    if !ok {
      RegroupedDigits(data, fromBits, toBits);
      return None;
    }
    if pad {
      if bits > 0 {
        PadGroup(data, fromBits, toBits, acc, bits, ret);
        ret := ret + [(acc * Pow2(toBits - bits)) % Pow2(toBits)];
        assert Regrouped(data, fromBits, toBits, ret, toBits - bits);
      } else {
        NoPadding(data, fromBits, toBits, acc, ret);
        assert Regrouped(data, fromBits, toBits, ret, 0);
      }
    } else {
      LeftOverZero(data, fromBits, toBits, acc, bits, ret);
      if bits >= fromBits {
        TooManyLeft(data, fromBits, toBits, acc, bits, ret);
        return None;
      }
      if (acc * Pow2(toBits - bits)) % Pow2(toBits) != 0 {
        TooManyLeft(data, fromBits, toBits, acc, bits, ret);
        return None;
      }
      assert Regrouped(ret, toBits, fromBits, data, bits);
    }
    return Some(ret);
  }

  lemma DigitTooLarge(data: seq<Byte>, i: nat, fromBits: nat)
    requires i < |data| && data[i] >= Pow2(fromBits)
    ensures !DigitsBelow(data, Pow2(fromBits))
  {
  }

  lemma NoPadding(data: seq<Byte>, fromBits: nat, toBits: nat, acc: nat, out: seq<Byte>)
    requires Converting(data, fromBits, toBits, acc, 0, out)
    ensures Regrouped(data, fromBits, toBits, out, 0)
  {
    PowZero();
    OneDivides(Spelled(data, Pow2(fromBits)));
  }

  /** The check for zero padding succeeds exactly when the data are the regrouped output. */
  lemma {:induction false} LeftOverZero(data: seq<Byte>, fromBits: nat, toBits: nat, acc: nat, bits: nat, out: seq<Byte>)
    requires Converting(data, fromBits, toBits, acc, bits, out) && bits < toBits <= 8
    ensures (acc * Pow2(toBits - bits)) % Pow2(toBits) == 0 <==> Regrouped(out, toBits, fromBits, data, bits)
    ensures DigitsBelow(data, Pow2(fromBits))
  {
    hide Pow2, Spelled;
    var v := Spelled(data, Pow2(fromBits));
    LeftOver(v, acc, bits, toBits);
    MultipleMeans(v, Pow2(bits), Pow2(toBits - bits));
  }

  /** Group counts fix the padding: n * a + x == m * b, both x below b. */
  lemma {:induction false} SameSplit(m: nat, n: nat, x: nat, y: nat, b: nat)
    requires x < b && y < b && m * b + x == n * b + y
    ensures m == n && x == y
  {
    DivModUnique(m * b + x, b, m, x);
    DivModUnique(n * b + y, b, n, y);
  }

  lemma {:induction false} TooManyLeft(data: seq<Byte>, fromBits: nat, toBits: nat, acc: nat, bits: nat, out: seq<Byte>)
    requires Converting(data, fromBits, toBits, acc, bits, out) && bits < toBits <= 8
    requires bits >= fromBits || (acc * Pow2(toBits - bits)) % Pow2(toBits) != 0
    ensures forall other, extra :: 0 <= extra < fromBits && extra < toBits ==> !Regrouped(other, toBits, fromBits, data, extra)
  {
    hide Pow2, Spelled;
    forall other: seq<Byte>, extra: nat | extra < fromBits && extra < toBits && Regrouped(other, toBits, fromBits, data, extra)
      ensures bits == extra && Spelled(data, Pow2(fromBits)) % Pow2(bits) == 0
    {
      SameSplit(|out|, |other|, bits, extra, toBits);
      DivModUnique(Spelled(data, Pow2(fromBits)), Pow2(extra), Spelled(other, Pow2(toBits)), 0);
    }
    LeftOver(Spelled(data, Pow2(fromBits)), acc, bits, toBits);
  }

  /** Bytes have one grouping into five bits... */
  lemma {:induction false} GroupsUnique(data: seq<Byte>, a: seq<Byte>, x: nat, b: seq<Byte>, y: nat)
    requires x < 5 && y < 5 && Regrouped(data, 8, 5, a, x) && Regrouped(data, 8, 5, b, y)
    ensures a == b
  {
    hide Pow2, Spelled;
    assert |a| == |b| && x == y;
    SpelledUnique(a, b, Pow2(5));
  }

  /** ... and five-bit groups stand for at most one list of bytes. */
  lemma {:induction false} BytesUnique(data: seq<Byte>, other: seq<Byte>, groups: seq<Byte>, x: nat, y: nat)
    requires x < 5 && y < 5 && Regrouped(data, 8, 5, groups, x) && Regrouped(other, 8, 5, groups, y)
    ensures data == other
  {
    hide Pow2, Spelled;
    assert |data| == |other| && x == y;
    DivModUnique(Spelled(groups, Pow2(5)), Pow2(x), Spelled(data, Pow2(8)), 0);
    DivModUnique(Spelled(groups, Pow2(5)), Pow2(x), Spelled(other, Pow2(8)), 0);
    SpelledUnique(data, other, Pow2(8));
  }

  // ---------------------------------------------------------------- characters

  predicate Printable(c: char) { 33 <= c as int <= 126 }
  predicate IsUpper(c: char) { 'A' <= c <= 'Z' }
  predicate IsLower(c: char) { 'a' <= c <= 'z' }

  predicate IsAscii(c: char) { c < 128 as char }

  // Unicode's lower-case mapping outside ASCII: an arbitrary function.
  const LowerBeyond: char -> char

  /** unicode.ToLower. */
  function LowerChar(c: char): char {
    if IsUpper(c) then (c as int + 32) as char else if IsAscii(c) then c else LowerBeyond(c)
  }

  function ToLower(s: Text): (r: Text)
    ensures |r| == |s| && forall i :: 0 <= i < |s| ==> r[i] == LowerChar(s[i])
  {
    seq(|s|, i requires 0 <= i < |s| => LowerChar(s[i]))
  }

  ghost predicate AllAscii(s: Text) { forall i :: 0 <= i < |s| ==> IsAscii(s[i]) }
  ghost predicate HasUpper(s: Text) { exists i :: 0 <= i < |s| && IsUpper(s[i]) }
  ghost predicate HasLower(s: Text) { exists i :: 0 <= i < |s| && IsLower(s[i]) }

  /** bech32CharsetRev: the value of a character, or -1. */
  function CharValue(c: char, n: nat): int
    requires n <= 32
  {
    if n == 0 then -1 else if CHARSET[n - 1] == c then n - 1 else CharValue(c, n - 1)
  }

  lemma CharsetHas32()
    ensures |CHARSET| == 32
  {
  }

  /** The place of each character, spelled out. */
  function Place(c: char): int {
    match c
    case 'q' => 0
    case 'p' => 1
    case 'z' => 2
    case 'r' => 3
    case 'y' => 4
    case '9' => 5
    case 'x' => 6
    case '8' => 7
    case 'g' => 8
    case 'f' => 9
    case '2' => 10
    case 't' => 11
    case 'v' => 12
    case 'd' => 13
    case 'w' => 14
    case '0' => 15
    case 's' => 16
    case '3' => 17
    case 'j' => 18
    case 'n' => 19
    case '5' => 20
    case '4' => 21
    case 'k' => 22
    case 'h' => 23
    case 'c' => 24
    case 'e' => 25
    case '6' => 26
    case 'm' => 27
    case 'u' => 28
    case 'a' => 29
    case '7' => 30
    case 'l' => 31
    case _ => -1
  }

  lemma CharsetPlaces(i: nat)
    requires i < 32
    ensures Place(CHARSET[i]) == i
  {
  }

  lemma CharsetDistinct(i: nat, j: nat)
    requires i < 32 && j < 32 && CHARSET[i] == CHARSET[j]
    ensures i == j
  {
    hide Place;
    CharsetPlaces(i);
    CharsetPlaces(j);
  }

  lemma CharsetPlain(i: nat)
    requires i < 32
    ensures CHARSET[i] != '1' && !IsUpper(CHARSET[i]) && IsAscii(CHARSET[i])
  {
  }

  lemma {:induction false} CharValueIs(c: char, n: nat)
    requires n <= 32
    ensures -1 <= CharValue(c, n) < n
    ensures CharValue(c, n) >= 0 ==> CHARSET[CharValue(c, n)] == c
    ensures CharValue(c, n) < 0 ==> forall i :: 0 <= i < n ==> CHARSET[i] != c
  {
    if n > 0 {
      CharValueIs(c, n - 1);
    }
  }

  function Chars(values: seq<Byte>): (r: Text)
    requires forall i :: 0 <= i < |values| ==> values[i] < 32
    ensures |r| == |values| && forall i :: 0 <= i < |values| ==> r[i] == CHARSET[values[i]]
  {
    seq(|values|, i requires 0 <= i < |values| => CHARSET[values[i]])
  }

  lemma {:induction false} CharsInjective(a: seq<Byte>, b: seq<Byte>)
    requires (forall i :: 0 <= i < |a| ==> a[i] < 32) && (forall i :: 0 <= i < |b| ==> b[i] < 32)
    requires Chars(a) == Chars(b)
    ensures a == b
  {
    forall i | 0 <= i < |a|
      ensures a[i] == b[i]
    {
      assert Chars(a)[i] == Chars(b)[i];
      CharsetDistinct(a[i], b[i]);
    }
  }

  // ---------------------------------------------------------------- the format

  /** bech32HRPExpand. */
  function HrpExpand(hrp: Text): seq<Byte> {
    seq(|hrp|, i requires 0 <= i < |hrp| => hrp[i] as int / 32 % 256) + [0] + seq(|hrp|, i requires 0 <= i < |hrp| => hrp[i] as int % 32)
  }

  /** The only six symbols that complete a human-readable part and some groups. */
  /** The bits of a character above its lowest five, and those five. */
  predicate SplitInto(c: char, high: int, low: int) {
    c as int % 8192 == high * 32 + low && 0 <= low < 32
  }

  function Checksum(hrp: Text, groups: seq<Byte>): (r: seq<Byte>)
    ensures |r| == 6 && forall i :: 0 <= i < 6 ==> r[i] < 32
  {
    Digits(Xor(Run(Run(1, HrpExpand(hrp) + groups), Zeros(6)), 1))
  }

  function Assemble(hrp: Text, symbols: seq<Byte>): Text
    requires forall i :: 0 <= i < |symbols| ==> symbols[i] < 32
  {
    hrp + "1" + Chars(symbols)
  }

  ghost predicate EncodedAs(hrp: Text, data: seq<Byte>, s: Text, groups: seq<Byte>, extra: nat) {
    && extra < 5 && Regrouped(data, 8, 5, groups, extra)
    && (forall i :: 0 <= i < |groups| ==> groups[i] < 32)
    && s == Assemble(hrp, groups + Checksum(hrp, groups))
  }

  /** The reference definition of a bech32 string. */
  ghost predicate IsEncoding(hrp: Text, data: seq<Byte>, s: Text) {
    |hrp| > 0 && exists groups, extra :: EncodedAs(hrp, data, s, groups, extra)
  }

  lemma {:induction false} ChecksumVerifies(hrp: Text, groups: seq<Byte>, d: seq<Byte>)
    requires |d| == 6 && forall i :: 0 <= i < 6 ==> d[i] < 32
    ensures Run(1, HrpExpand(hrp) + (groups + d)) == 1 <==> d == Checksum(hrp, groups)
  {
    hide Run, Digits;
    assert HrpExpand(hrp) + (groups + d) == (HrpExpand(hrp) + groups) + d;
    RunConcat(1, HrpExpand(hrp) + groups, d);
    OneChecksum(Run(1, HrpExpand(hrp) + groups), d);
  }

  /** The two loops of bech32HRPExpand. */
  method ExpandHrp(hrp: Text) returns (ret: seq<Byte>)
    ensures ret == HrpExpand(hrp)
    ensures |ret| == 2 * |hrp| + 1 && ret[|hrp|] == 0
    ensures forall i :: 0 <= i < |hrp| ==> SplitInto(hrp[i], ret[..|hrp|][i], ret[|hrp| + 1..][i])
  {
    HrpParts(hrp);
    ghost var n := |hrp|;
    ghost var high := seq(n, i requires 0 <= i < n => hrp[i] as int / 32 % 256);
    ghost var low := seq(n, i requires 0 <= i < n => hrp[i] as int % 32);
    ret := [];
    for i := 0 to |hrp|
      invariant ret == high[..i]
    {
      ret := ret + [hrp[i] as int / 32 % 256];
    }
    ret := ret + [0];
    for i := 0 to |hrp|
      invariant ret == high + [0] + low[..i]
    {
      ret := ret + [hrp[i] as int % 32];
    }
    assert low[..n] == low;
  }

  lemma HrpParts(hrp: Text)
    ensures var r := HrpExpand(hrp);
            && |r| == 2 * |hrp| + 1 && r[|hrp|] == 0
            && forall i :: 0 <= i < |hrp| ==> SplitInto(hrp[i], r[..|hrp|][i], r[|hrp| + 1..][i])
  {
  }

  /** bech32CreateChecksum. */
  method CreateChecksum(hrp: Text, data: seq<Byte>) returns (ret: seq<Byte>)
    ensures ret == Checksum(hrp, data)
  {
    hide Run, Digit;
    var expanded := ExpandHrp(hrp);
    var values := expanded + data + [0, 0, 0, 0, 0, 0];
    assert [0, 0, 0, 0, 0, 0] == Zeros(6);
    RunConcat(1, HrpExpand(hrp) + data, Zeros(6));
    var polymod := ComputePolymod(values);
    polymod := Xor(polymod, 1);
    ret := [];
    for i := 0 to 6
      invariant ret == Digits(polymod)[..i]
    {
      ret := ret + [Digit(polymod, i)];
    }
  }

  lemma FiveBits()
    ensures Pow2(5) == 32 && Pow2(8) == 256
  {
    assert Pow2(2) == 4;
    PowAdd(4, 4);
    assert Pow2(5) == 2 * Pow2(4);
  }

  ghost predicate ValidHrp(hrp: Text) {
    |hrp| > 0 && forall i :: 0 <= i < |hrp| ==> Printable(hrp[i])
  }

  /** Bech32Encode: every printable human-readable part and every list of bytes has an encoding. */
  method Encode(hrp: Text, data: seq<Byte>) returns (r: Option<Text>)
    ensures r.Some? <==> ValidHrp(hrp)
    ensures r.Some? <==> |hrp| > 0 && forall i :: 0 <= i < |hrp| ==> 33 <= hrp[i] as int <= 126
    ensures r.Some? ==> IsEncoding(hrp, data, r.value)
  {
    hide Regrouped, Run, Digits, Checksum, Pow2, Chars, IsEncoding;
    if |hrp| == 0 {
      return None;
    }
    for i := 0 to |hrp|
      invariant forall j :: 0 <= j < i ==> Printable(hrp[j])
    {
      if !Printable(hrp[i]) {
        return None;
      }
    }
    FiveBits();
    var conv := ConvertBits(data, 8, 5, true);
    var groups := conv.value;
    ghost var extra :| 0 <= extra < 5 && Regrouped(data, 8, 5, groups, extra);
    GroupsSmall(data, groups, extra);
    var chk := CreateChecksum(hrp, groups);
    var s := hrp + "1";
    s := AppendChars(s, groups);
    s := AppendChars(s, chk);
    WrittenOut(hrp, data, s, groups, extra);
    return Some(s);
  }

  lemma WrittenOut(hrp: Text, data: seq<Byte>, s: Text, groups: seq<Byte>, extra: nat)
    requires |hrp| > 0 && extra < 5 && Regrouped(data, 8, 5, groups, extra)
    requires (forall i :: 0 <= i < |groups| ==> groups[i] < 32) && s == hrp + "1" + Chars(groups) + Chars(Checksum(hrp, groups))
    ensures IsEncoding(hrp, data, s)
  {
    var chk := Checksum(hrp, groups);
    CharsConcat(groups, chk);
    hide Regrouped, Checksum, Chars;
    assert s == Assemble(hrp, groups + chk);
    assert EncodedAs(hrp, data, s, groups, extra);
  }

  /** The loops of Bech32Encode that write characters. */
  method AppendChars(s: Text, values: seq<Byte>) returns (r: Text)
    requires forall i :: 0 <= i < |values| ==> values[i] < 32
    ensures r == s + Chars(values)
  {
    CharsetHas32();
    r := s;
    for i := 0 to |values|
      invariant r == s + Chars(values[..i])
    {
      assert Chars(values[..i + 1]) == Chars(values[..i]) + [CHARSET[values[i]]];
      r := r + [CHARSET[values[i]]];
    }
    assert values[..|values|] == values;
  }

  lemma CharsConcat(a: seq<Byte>, b: seq<Byte>)
    requires (forall i :: 0 <= i < |a| ==> a[i] < 32) && (forall i :: 0 <= i < |b| ==> b[i] < 32)
    ensures Chars(a + b) == Chars(a) + Chars(b)
  {
  }

  lemma GroupsSmall(data: seq<Byte>, groups: seq<Byte>, extra: nat)
    requires Regrouped(data, 8, 5, groups, extra)
    ensures forall i :: 0 <= i < |groups| ==> groups[i] < 32
  {
    FiveBits();
  }

  // ---------------------------------------------------------------- decoding

  /** strings.LastIndex(s, "1"). */
  method LastSeparator(s: Text) returns (r: int)
    ensures -1 <= r < |s|
    ensures r >= 0 ==> s[r] == '1'
    ensures forall i :: r < i < |s| ==> s[i] != '1'
  {
    r := |s| - 1;
    while r >= 0 && s[r] != '1'
      invariant -1 <= r < |s|
      invariant forall i :: r < i < |s| ==> s[i] != '1'
    {
      r := r - 1;
    }
  }

  /** Both cases at once? */
  method MixedCase(s: Text) returns (mixed: bool)
    ensures mixed <==> HasUpper(s) && HasLower(s)
  {
    var hasUpper, hasLower := false, false;
    for i := 0 to |s|
      invariant hasUpper <==> exists j :: 0 <= j < i && IsUpper(s[j])
      invariant hasLower <==> exists j :: 0 <= j < i && IsLower(s[j])
    {
      if IsUpper(s[i]) {
        hasUpper := true;
      }
      if IsLower(s[i]) {
        hasLower := true;
      }
    }
    return hasUpper && hasLower;
  }

  ghost predicate AllInCharset(s: Text) {
    forall i :: 0 <= i < |s| ==> s[i] in CHARSET
  }

  /** The values of the data characters; none when one is not in the charset. */
  method CharValues(s: Text) returns (r: Option<seq<Byte>>)
    ensures r.Some? ==> (forall i :: 0 <= i < |r.value| ==> r.value[i] < 32) && s == Chars(r.value)
    ensures r.None? ==> !AllInCharset(s)
  {
    CharsetHas32();
    hide CharValue;
    var values: seq<Byte> := [];
    for i := 0 to |s|
      invariant |values| == i && (forall j :: 0 <= j < i ==> values[j] < 32) && s[..i] == Chars(values)
    {
      CharValueIs(s[i], 32);
      var v := CharValue(s[i], 32);
      if v < 0 {
        return None;
      }
      assert Chars(values + [v]) == Chars(values) + [s[i]];
      values := values + [v];
    }
    assert s[..|s|] == s;
    return Some(values);
  }

  /** An assembled string has its last separator right after the human-readable part. */
  lemma {:induction false} SeparatorPlace(hrp: Text, symbols: seq<Byte>, sep: int)
    requires forall i :: 0 <= i < |symbols| ==> symbols[i] < 32
    requires var s := Assemble(hrp, symbols);
             -1 <= sep < |s| && (sep >= 0 ==> s[sep] == '1') && (forall i :: sep < i < |s| ==> s[i] != '1')
    ensures sep == |hrp|
    ensures Assemble(hrp, symbols)[..sep] == hrp && Assemble(hrp, symbols)[sep + 1..] == Chars(symbols)
  {
    var s := Assemble(hrp, symbols);
    assert s[|hrp|] == '1';
    assert s == (hrp + "1") + Chars(symbols);
    forall i | |hrp| < i < |s|
      ensures s[i] != '1'
    {
      assert s[i] == Chars(symbols)[i - |hrp| - 1];
      CharsetPlain(symbols[i - |hrp| - 1]);
    }
    assert s[|hrp| + 1..] == Chars(symbols);
  }

  /** What Bech32Decode extracts from the lower-cased string. It counts bytes, which comes to the same: a
      data part with a character of more than one is refused either way. */
  method DecodeLower(s: Text) returns (r: Option<(Text, seq<Byte>)>)
    ensures r.Some? ==> IsEncoding(r.value.0, r.value.1, s)
    ensures r.None? ==> forall hrp, data :: !IsEncoding(hrp, data, s)
  {
    hide Regrouped, Checksum, Run, Chars, Pow2;
    var sepIdx := LastSeparator(s);
    EncodingLength(s, sepIdx);
    if sepIdx < 1 || sepIdx + 7 > |s| {
      return None;
    }
    var hrp, dataStr := s[..sepIdx], s[sepIdx + 1..];
    assert s == hrp + "1" + dataStr;
    var values := CharValues(dataStr);
    if values.None? {
      return None;
    }
    var data5 := values.value;
    CharsLength(data5);
    var n := |data5| - 6;
    var body, sum := data5[..n], data5[n..];
    assert data5 == body + sum;
    ChecksumVerifies(hrp, body, sum);
    assert s == Assemble(hrp, data5);
    EncodingSplits(s, hrp, body, sum, sepIdx);
    var expanded := ExpandHrp(hrp);
    var polymod := ComputePolymod(expanded + data5);
    if polymod != 1 {
      return None;
    }
    FiveBits();
    var data8 := ConvertBits(body, 5, 8, false);
    if data8.None? {
      return None;
    }
    ghost var extra :| 0 <= extra < 5 && Regrouped(data8.value, 8, 5, body, extra);
    assert EncodedAs(hrp, data8.value, s, body, extra);
    return Some((hrp, data8.value));
  }

  /** Where the last separator of an encoding can be, and what follows it. */
  lemma {:induction false} EncodingLength(s: Text, sep: int)
    requires -1 <= sep < |s| && (sep >= 0 ==> s[sep] == '1') && (forall i :: sep < i < |s| ==> s[i] != '1')
    ensures forall hrp, data :: IsEncoding(hrp, data, s) ==>
              1 <= sep && sep + 7 <= |s| && AllInCharset(s[sep + 1..])
  {
    hide Regrouped, Checksum, Chars;
    forall hrp, data | IsEncoding(hrp, data, s)
      ensures 1 <= sep && sep + 7 <= |s| && AllInCharset(s[sep + 1..])
    {
      var groups, extra :| EncodedAs(hrp, data, s, groups, extra);
      var symbols := groups + Checksum(hrp, groups);
      SeparatorPlace(hrp, symbols, sep);
      AssembledLength(hrp, symbols);
      CharsInCharset(symbols);
    }
  }

  /** What an encoding decodes to is read off its parts. */
  lemma {:induction false} EncodingSplits(s: Text, hrp: Text, body: seq<Byte>, sum: seq<Byte>, sep: int)
    requires |sum| == 6 && forall i :: 0 <= i < |body + sum| ==> (body + sum)[i] < 32
    requires s == Assemble(hrp, body + sum) && sep == |hrp| && sep < |s| && s[sep] == '1' && forall i :: sep < i < |s| ==> s[i] != '1'
    ensures forall h, data :: IsEncoding(h, data, s) ==>
              h == hrp && sum == Checksum(hrp, body) && exists extra :: 0 <= extra < 5 && Regrouped(data, 8, 5, body, extra)
  {
    hide Regrouped, Checksum, Assemble;
    forall h, data | IsEncoding(h, data, s)
      ensures h == hrp && sum == Checksum(hrp, body) && exists extra :: 0 <= extra < 5 && Regrouped(data, 8, 5, body, extra)
    {
      var groups, extra :| EncodedAs(h, data, s, groups, extra);
      SplitUnique(h, groups, hrp, body, sum, sep);
    }
  }

  lemma CharsLength(values: seq<Byte>)
    requires forall i :: 0 <= i < |values| ==> values[i] < 32
    ensures |Chars(values)| == |values|
  {
  }

  lemma AssembledLength(hrp: Text, symbols: seq<Byte>)
    requires forall i :: 0 <= i < |symbols| ==> symbols[i] < 32
    ensures |Assemble(hrp, symbols)| == |hrp| + 1 + |symbols|
  {
  }

  lemma AssembledParts(hrp: Text, symbols: seq<Byte>)
    requires forall i :: 0 <= i < |symbols| ==> symbols[i] < 32
    ensures var s := Assemble(hrp, symbols);
            && |s| == |hrp| + 1 + |Chars(symbols)| && s[|hrp|] == '1'
            && forall i :: |hrp| < i < |s| ==> s[i] == Chars(symbols)[i - |hrp| - 1]
  {
  }

  lemma CharsInCharset(values: seq<Byte>)
    requires forall i :: 0 <= i < |values| ==> values[i] < 32
    ensures AllInCharset(Chars(values))
  {
    CharsetHas32();
  }

  lemma {:induction false} SplitUnique(h: Text, groups: seq<Byte>, hrp: Text, body: seq<Byte>, sum: seq<Byte>, sep: int)
    requires forall i :: 0 <= i < |groups| ==> groups[i] < 32
    requires |sum| == 6 && forall i :: 0 <= i < |body + sum| ==> (body + sum)[i] < 32
    requires Assemble(h, groups + Checksum(h, groups)) == Assemble(hrp, body + sum)
    requires var s := Assemble(hrp, body + sum);
             sep == |hrp| && sep < |s| && s[sep] == '1' && forall i :: sep < i < |s| ==> s[i] != '1'
    ensures h == hrp && groups == body && sum == Checksum(hrp, body)
  {
    hide Checksum, Assemble;
    var symbols := groups + Checksum(h, groups);
    SeparatorPlace(h, symbols, sep);
    SeparatorPlace(hrp, body + sum, sep);
    CharsInjective(symbols, body + sum);
    assert symbols[..|groups|] == groups && symbols[|groups|..] == Checksum(h, groups);
    assert (body + sum)[..|body|] == body && (body + sum)[|body|..] == sum;
  }

  /** Bech32Decode: accepts exactly the strings of one case whose lower-case form is an encoding. */
  method Decode(s: Text) returns (r: Option<(Text, seq<Byte>)>)
    ensures r.Some? ==> !(HasUpper(s) && HasLower(s)) && IsEncoding(r.value.0, r.value.1, ToLower(s))
    ensures r.None? ==> (HasUpper(s) && HasLower(s)) || forall hrp, data :: !IsEncoding(hrp, data, ToLower(s))
  {
    hide IsEncoding;
    if |s| == 0 {
      forall hrp, data
        ensures !IsEncoding(hrp, data, ToLower(s))
      {
        EncodingNotEmpty(hrp, data, ToLower(s));
      }
      return None;
    }
    var mixed := MixedCase(s);
    if mixed {
      return None;
    }
    r := DecodeLower(ToLower(s));
  }

  lemma EncodingNotEmpty(hrp: Text, data: seq<Byte>, s: Text)
    requires |s| == 0
    ensures !IsEncoding(hrp, data, s)
  {
  }

  // ---------------------------------------------------------------- round trips

  /** A string encodes at most one pair. */
  lemma {:induction false} EncodingUnique(hrp: Text, data: seq<Byte>, hrp': Text, data': seq<Byte>, s: Text)
    requires IsEncoding(hrp, data, s) && IsEncoding(hrp', data', s)
    ensures hrp == hrp' && data == data'
  {
    hide Regrouped, Checksum;
    var a, x :| EncodedAs(hrp, data, s, a, x);
    var b, y :| EncodedAs(hrp', data', s, b, y);
    SeparatorOf(hrp, a);
    SplitUnique(hrp', b, hrp, a, Checksum(hrp, a), |hrp|);
    BytesUnique(data, data', a, x, y);
  }

  lemma SeparatorOf(hrp: Text, groups: seq<Byte>)
    requires forall i :: 0 <= i < |groups| ==> groups[i] < 32
    ensures var s := Assemble(hrp, groups + Checksum(hrp, groups));
            |hrp| < |s| && s[|hrp|] == '1' && forall i :: |hrp| < i < |s| ==> s[i] != '1'
  {
    hide Checksum, Chars, Assemble;
    var symbols := groups + Checksum(hrp, groups);
    var s := Assemble(hrp, symbols);
    AssembledParts(hrp, symbols);
    CharsLength(symbols);
    forall i | |hrp| < i < |s|
      ensures s[i] != '1'
    {
      assert s[i] == Chars(symbols)[i - |hrp| - 1];
      CharsetPlain(symbols[i - |hrp| - 1]);
    }
  }

  /** A pair has only one encoding. */
  lemma {:induction false} EncodingDetermined(hrp: Text, data: seq<Byte>, s: Text, s': Text)
    requires IsEncoding(hrp, data, s) && IsEncoding(hrp, data, s')
    ensures s == s'
  {
    hide Regrouped, Checksum;
    var a, x :| EncodedAs(hrp, data, s, a, x);
    var b, y :| EncodedAs(hrp, data, s', b, y);
    GroupsUnique(data, a, x, b, y);
  }

  lemma AssembledAt(hrp: Text, symbols: seq<Byte>, i: nat)
    requires forall k :: 0 <= k < |symbols| ==> symbols[k] < 32
    requires i < |Assemble(hrp, symbols)|
    ensures i < |hrp| ==> Assemble(hrp, symbols)[i] == hrp[i]
    ensures i >= |hrp| ==> !IsUpper(Assemble(hrp, symbols)[i]) && IsAscii(Assemble(hrp, symbols)[i])
    ensures |hrp| <= |Assemble(hrp, symbols)|
  {
    if i > |hrp| {
      assert Assemble(hrp, symbols)[i] == Chars(symbols)[i - |hrp| - 1];
      CharsetPlain(symbols[i - |hrp| - 1]);
    }
  }

  lemma {:induction false} EncodingCase(hrp: Text, data: seq<Byte>, s: Text)
    requires IsEncoding(hrp, data, s)
    ensures HasUpper(s) <==> HasUpper(hrp)
    ensures ValidHrp(hrp) ==> AllAscii(s) && (!HasUpper(hrp) ==> ToLower(s) == s)
  {
    hide Regrouped, Checksum, Assemble, IsUpper;
    var groups, x :| EncodedAs(hrp, data, s, groups, x);
    forall i | 0 <= i < |s|
      ensures (i < |hrp| ==> s[i] == hrp[i]) && (i >= |hrp| ==> !IsUpper(s[i]) && IsAscii(s[i])) && |hrp| <= |s|
    {
      AssembledAt(hrp, groups + Checksum(hrp, groups), i);
    }
    AssembledLength(hrp, groups + Checksum(hrp, groups));
    if HasUpper(hrp) {
      var i :| 0 <= i < |hrp| && IsUpper(hrp[i]);
      assert s[i] == hrp[i];
    }
  }

  /** An encoding in capital letters. */
  function Capitals(s: Text): (r: Text)
    ensures |r| == |s| && forall i :: 0 <= i < |s| ==> r[i] == if 'a' <= s[i] <= 'z' then (s[i] as int - 32) as char else s[i]
  {
    seq(|s|, i requires 0 <= i < |s| => if 'a' <= s[i] <= 'z' then (s[i] as int - 32) as char else s[i])
  }

  /** Capital letters decode like small ones. */
  method CapitalsDecode(hrp: Text, data: seq<Byte>, s: Text) returns (pair: Option<(Text, seq<Byte>)>)
    requires IsEncoding(hrp, data, s) && ValidHrp(hrp) && !HasUpper(hrp)
    ensures pair == Some((hrp, data))
  {
    hide IsEncoding, ValidHrp;
    EncodingCase(hrp, data, s);
    CapitalsLower(s);
    pair := Decode(Capitals(s));
    if pair.Some? {
      EncodingUnique(hrp, data, pair.value.0, pair.value.1, s);
    }
  }

  lemma CapitalsLower(s: Text)
    requires AllAscii(s) && ToLower(s) == s
    ensures ToLower(Capitals(s)) == s && !HasLower(Capitals(s))
  {
    forall i | 0 <= i < |s|
      ensures LowerChar(Capitals(s)[i]) == s[i]
    {
      assert LowerChar(s[i]) == s[i];
    }
  }

  /** Decoding is looser than the format outside ASCII: what lower-cases to a character of an encoding may
      stand in its place. (Unicode has such a character for k, U+212A.) */
  method LookalikeDecodes(hrp: Text, data: seq<Byte>, s: Text, i: nat, c: char) returns (pair: Option<(Text, seq<Byte>)>)
    requires IsEncoding(hrp, data, s) && ValidHrp(hrp) && !HasUpper(hrp) && i < |s|
    requires !IsAscii(c) && LowerBeyond(c) == s[i]
    ensures s[i := c] != s && pair == Some((hrp, data))
  {
    hide IsEncoding, ValidHrp;
    EncodingCase(hrp, data, s);
    assert ToLower(s)[i] == s[i];
    assert ToLower(s[i := c]) == s;
    assert !HasUpper(s[i := c]);
    pair := Decode(s[i := c]);
    if pair.Some? {
      EncodingUnique(hrp, data, pair.value.0, pair.value.1, s);
    }
  }

  /** The law of the format: what is encoded decodes to itself, for exactly the human-readable parts
      without upper-case letters (Encode takes others too, but Decode answers in lower case). */
  method RoundTrip(hrp: Text, data: seq<Byte>) returns (s: Option<Text>, back: Option<(Text, seq<Byte>)>)
    ensures s.Some? <==> ValidHrp(hrp)
    ensures s.Some? ==> (back == Some((hrp, data)) <==> !HasUpper(hrp))
  {
    hide IsEncoding;
    s := Encode(hrp, data);
    back := None;
    if s.Some? {
      back := Decode(s.value);
      EncodingCase(hrp, data, s.value);
      if !HasUpper(hrp) {
        if back.Some? {
          EncodingUnique(hrp, data, back.value.0, back.value.1, s.value);
        }
      } else if back.Some? {
        LowerHasNoUpper(s.value);
        EncodingCase(back.value.0, back.value.1, ToLower(s.value));
      }
    }
  }

  lemma LowerHasNoUpper(s: Text)
    requires AllAscii(s)
    ensures !HasUpper(ToLower(s))
  {
  }

  /** And back: a decoded string was, up to its case, the encoding of what it decoded to. */
  method RoundTripBack(s: Text) returns (pair: Option<(Text, seq<Byte>)>, again: Option<Text>)
    ensures pair.Some? && ValidHrp(pair.value.0) ==> again == Some(ToLower(s))
    ensures pair.Some? && !ValidHrp(pair.value.0) ==> again.None?
  {
    hide IsEncoding;
    pair := Decode(s);
    again := None;
    if pair.Some? {
      again := Encode(pair.value.0, pair.value.1);
      if again.Some? {
        EncodingDetermined(pair.value.0, pair.value.1, again.value, ToLower(s));
      }
    }
  }
}
