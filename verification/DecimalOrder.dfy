/**
 What EmbeddedContextProtocol.cs does with normal forms: the canonical key that decides equality,
 the integer test, and `CompareNumbers`, whose treatment of zero is stated exactly.
 */
module DecimalOrder {
  import opened Optional
  import opened DecimalPoint
  import opened Decimal

  lemma OneMoreZero(digits: string, n: nat)
    requires n < |digits| - 1 && digits[|digits| - 1 - n] == '0'
    ensures TrailingZeros(digits[..|digits| - n]) == 1 + TrailingZeros(digits[..|digits| - (n + 1)])
  {
    var rest := digits[..|digits| - n];
    assert rest[..|rest| - 1] == digits[..|digits| - (n + 1)];
  }

  method CountTrailingZeros(digits: string) returns (trailingZeros: nat)
    requires |digits| > 0
    ensures trailingZeros == TrailingZeros(digits)
  {
    trailingZeros := 0;
    assert digits[..|digits|] == digits;
    while trailingZeros < |digits| - 1 && digits[|digits| - 1 - trailingZeros] == '0'
      invariant 0 <= trailingZeros <= |digits| - 1
      invariant TrailingZeros(digits) == trailingZeros + TrailingZeros(digits[..|digits| - trailingZeros])
    {
      OneMoreZero(digits, trailingZeros);
      trailingZeros := trailingZeros + 1;
    }
  }

  /** The tail of `TryNormalize`, once the digits of both parts stand together. */
  method NormalizeByLoop(negative: bool, all: string, decimals: nat, exponent: int) returns (n: Number)
    ensures n == NormalizeDigits(negative, all, decimals, exponent)
  {
    var digits := TrimStart(all);
    if digits == "" {
      return ZERO;
    }
    var scale := exponent - decimals;
    var trailingZeros := CountTrailingZeros(digits);
    assert digits[..|digits|] == digits;
    if trailingZeros > 0 {
      digits := digits[..|digits| - trailingZeros];
      scale := scale + trailingZeros;
    }
    n := Number(negative, digits, scale);
  }

  method NormalizeRaw(raw: string) returns (r: Option<Number>)
    requires IsLiteral(raw)
    ensures r == TryNormalize(raw)
  {
    if |raw| == 0 || |raw| > MAXIMUM_CHARACTERS {
      return None;
    }
    var l := Split(raw);
    var n := NormalizeByLoop(l.negative, l.whole + FractionDigits(l), |FractionDigits(l)|, ExponentValue(l));
    return Some(n);
  }

  // ---- the canonical key ---------------------------------------------------------------------

  function DigitChar(d: int): (c: char)
    requires 0 <= d < 10
    ensures IsDigit(c) && DigitValue(c) == d
  {
    '0' + d as char
  }

  function NatText(n: nat): string {
    if n < 10 then [DigitChar(n)] else NatText(n / 10) + [DigitChar(n % 10)]
  }

  function IntText(x: int): string {
    if x < 0 then "-" + NatText(-x) else NatText(x)
  }

  function Key(n: Number): string {
    if n.digits == "0" then "0"
    else (if n.negative then "-" else "") + n.digits + "e" + IntText(n.scale)
  }

  lemma {:induction false} NatTextReads(n: nat)
    ensures AllDigits(NatText(n)) && |NatText(n)| > 0 && DigitsValue(NatText(n)) == n
  {
    if n < 10 {
      DigitsValueOne(DigitChar(n));
    } else {
      NatTextReads(n / 10);
      var text := NatText(n);
      assert text[..|text| - 1] == NatText(n / 10);
    }
  }

  lemma IntTextReads(x: int)
    ensures AllDigits(Unsigned(IntText(x))) && |Unsigned(IntText(x))| > 0 && SignedValue(IntText(x)) == x
  {
    NatTextReads(if x < 0 then -x else x);
    if x < 0 {
      assert Unsigned(IntText(x)) == NatText(-x);
    } else {
      assert Unsigned(IntText(x)) == NatText(x);
    }
  }

  /** The literal that a key spells. */
  function KeyLiteral(n: Number): Literal {
    if n.digits == "0" then Literal(false, "0", None, None)
    else Literal(n.negative, n.digits, None, Some(Exponent('e', IntText(n.scale))))
  }

  lemma KeySpells(n: Number)
    requires Canonical(n)
    ensures WellFormed(KeyLiteral(n)) && Text(KeyLiteral(n)) == Key(n)
  {
    if n.digits != "0" {
      IntTextReads(n.scale);
    }
  }

  /** A key is itself a number literal, and reading it back gives the number it was made from. */
  lemma KeyReadsBack(n: Number)
    requires Canonical(n)
    ensures IsLiteral(Key(n)) && Normalize(Split(Key(n))) == n
  {
    KeySpells(n);
    SplitInverts(KeyLiteral(n));
    KeyNormalizes(n);
  }

  lemma KeyNormalizes(n: Number)
    requires Canonical(n) && WellFormed(KeyLiteral(n))
    ensures Normalize(KeyLiteral(n)) == n
  {
    var l := KeyLiteral(n);
    if n.digits != "0" {
      IntTextReads(n.scale);
      assert l.whole + FractionDigits(l) == n.digits;
      assert TrimStart(n.digits) == n.digits;
      assert TrailingZeros(n.digits) == 0;
      assert n.digits[..|n.digits|] == n.digits;
    } else {
      assert l.whole + FractionDigits(l) == "0";
      assert "0"[1..] == "";
    }
  }

  /** Two accepted literals denote the same number exactly when their canonical keys are equal. */
  lemma KeysDecideEquality(left: string, right: string)
    requires IsLiteral(left) && TryNormalize(left).Some?
    requires IsLiteral(right) && TryNormalize(right).Some?
    ensures ValueOf(left) == ValueOf(right)
      <==> Key(TryNormalize(left).value) == Key(TryNormalize(right).value)
  {
    var a, b := TryNormalize(left).value, TryNormalize(right).value;
    NormalizePreservesValue(Split(left));
    NormalizePreservesValue(Split(right));
    KeyReadsBack(a);
    KeyReadsBack(b);
    if ValueOf(left) == ValueOf(right) {
      CanonicalIsUnique(a, b);
    }
  }

  // ---- integers ------------------------------------------------------------------------------

  predicate IsInteger(n: Number) { n.digits == "0" || n.scale >= 0 }

  ghost predicate IsWhole(x: real) { x == x.Floor as real }

  /** The integer test on the normal form is a test of the value. */
  lemma IntegerTestIsExact(n: Number)
    requires Canonical(n)
    ensures IsInteger(n) <==> IsWhole(NumberValue(n))
  {
    if n.digits == "0" {
      ZeroValue(n);
    } else if n.scale >= 0 {
      ScaledUpIsWhole(n);
    } else {
      ScaledDownIsNotWhole(n);
    }
  }

  lemma ScaledUpIsWhole(n: Number)
    requires Canonical(n) && n.scale >= 0
    ensures IsWhole(NumberValue(n))
  {
    var d := DigitsValue(n.digits);
    ShiftWhole(d, n.scale);
    var k := if n.negative then -Append(d, n.scale) else Append(d, n.scale);
    assert NumberValue(n) == k as real;
  }

  /** Its last digit is not a zero, so it is no multiple of ten. */
  lemma ScaledDownIsNotWhole(n: Number)
    requires Canonical(n) && n.digits != "0" && n.scale < 0
    ensures !IsWhole(NumberValue(n))
  {
    var d, last := DigitsValue(n.digits), |n.digits| - 1;
    assert d == 10 * DigitsValue(n.digits[..last]) + DigitValue(n.digits[last]);
    if IsWhole(NumberValue(n)) {
      var k := NumberValue(n).Floor;
      var size := if n.negative then -k else k;
      CommonScale(d, n.scale, size, 0);
    }
  }

  // ---- comparison ----------------------------------------------------------------------------

  function DigitAt(s: string, i: nat): char { if i < |s| then s[i] else '0' }

  function Longer(left: string, right: string): nat { if |left| < |right| then |right| else |left| }

  /** The difference of the first digits, from index `i` on, that differ; 0 if none do. */
  function CompareFrom(left: string, right: string, i: nat): int
    decreases Longer(left, right) - i
  {
    if i >= Longer(left, right) then 0
    else if DigitAt(left, i) != DigitAt(right, i) then DigitAt(left, i) as int - DigitAt(right, i) as int
    else CompareFrom(left, right, i + 1)
  }

  method CompareCoefficientDigits(left: string, right: string) returns (r: int)
    ensures r == CompareFrom(left, right, 0)
  {
    var length := Longer(left, right);
    for index := 0 to length
      invariant CompareFrom(left, right, 0) == CompareFrom(left, right, index)
    {
      var leftDigit := if index < |left| then left[index] else '0';
      var rightDigit := if index < |right| then right[index] else '0';
      if leftDigit != rightDigit {
        return leftDigit as int - rightDigit as int;
      }
    }
    return 0;
  }

  function Sign(x: int): int { if x < 0 then -1 else if x > 0 then 1 else 0 }

  function CompareAbsolute(a: Number, b: Number): int {
    var magnitude := Sign((|a.digits| + a.scale) - (|b.digits| + b.scale));
    if magnitude != 0 then magnitude else CompareFrom(a.digits, b.digits, 0)
  }

  function Compare(a: Number, b: Number): int {
    if a.digits == "0" && b.digits == "0" then 0
    else if a.negative != b.negative then (if a.negative then -1 else 1)
    else if a.negative then -CompareAbsolute(a, b) else CompareAbsolute(a, b)
  }

  method CompareNumbers(left: string, right: string) returns (r: Option<int>)
    requires IsLiteral(left) && IsLiteral(right)
    ensures r == if TryNormalize(left).None? || TryNormalize(right).None? then None
                 else Some(Compare(TryNormalize(left).value, TryNormalize(right).value))
  {
    var a := NormalizeRaw(left);
    var b := NormalizeRaw(right);
    if a.None? || b.None? {
      return None;
    }
    var comparison := CompareNormal(a.value, b.value);
    return Some(comparison);
  }

  /** `CompareNumbers`, once both literals are normalised. */
  method CompareNormal(x: Number, y: Number) returns (comparison: int)
    ensures comparison == Compare(x, y)
  {
    if x.digits == "0" && y.digits == "0" {
      return 0;
    }
    if x.negative != y.negative {
      return if x.negative then -1 else 1;
    }
    var magnitudeComparison := Sign((|x.digits| + x.scale) - (|y.digits| + y.scale));
    var absoluteComparison := magnitudeComparison;
    if magnitudeComparison == 0 {
      absoluteComparison := CompareCoefficientDigits(x.digits, y.digits);
    }
    return if x.negative then -absoluteComparison else absoluteComparison;
  }

  function Zeros(n: nat): (r: string)
    ensures |r| == n && AllDigits(r) && forall k | 0 <= k < n :: r[k] == '0'
  {
    seq(n, _ => '0')
  }

  function Pad(s: string, length: nat): string
    requires |s| <= length
  {
    s + Zeros(length - |s|)
  }

  lemma PadValue(s: string, length: nat)
    requires AllDigits(s) && |s| <= length
    ensures AllDigits(Pad(s, length)) && DigitsValue(Pad(s, length)) == Append(DigitsValue(s), length - |s|)
  {
    ZerosValue(Zeros(length - |s|));
    DigitsValueAppend(s, Zeros(length - |s|));
  }

  /** Of two digit strings of one length, the first difference decides. */
  lemma {:induction false} FirstDifference(p: string, q: string, i: nat)
    requires AllDigits(p) && AllDigits(q) && i < |p| == |q|
    requires p[..i] == q[..i] && p[i] < q[i]
    ensures DigitsValue(p) < DigitsValue(q)
    decreases |p|
  {
    var k := |p| - 1;
    if i < k {
      assert p[..k][..i] == p[..i] && q[..k][..i] == q[..i];
      FirstDifference(p[..k], q[..k], i);
    }
  }

  /** Comparing coefficients digit by digit compares the padded integers. */
  lemma {:induction false} CompareFromIs(left: string, right: string, i: nat)
    requires AllDigits(left) && AllDigits(right)
    requires var n := Longer(left, right); i <= n && Pad(left, n)[..i] == Pad(right, n)[..i]
    ensures var n := Longer(left, right);
      && AllDigits(Pad(left, n)) && AllDigits(Pad(right, n))
      && (CompareFrom(left, right, i) < 0 <==> DigitsValue(Pad(left, n)) < DigitsValue(Pad(right, n)))
      && (CompareFrom(left, right, i) == 0 <==> DigitsValue(Pad(left, n)) == DigitsValue(Pad(right, n)))
    decreases Longer(left, right) - i
  {
    var n := Longer(left, right);
    var p, q := Pad(left, n), Pad(right, n);
    if i == n {
      assert p == p[..n] && q == q[..n];
    } else {
      assert p[i] == DigitAt(left, i) && q[i] == DigitAt(right, i);
      if p[i] < q[i] {
        FirstDifference(p, q, i);
      } else if q[i] < p[i] {
        FirstDifference(q, p, i);
      } else {
        assert p[..i + 1] == p[..i] + [p[i]] && q[..i + 1] == q[..i] + [q[i]];
        CompareFromIs(left, right, i + 1);
      }
    }
  }

  lemma PaddedMagnitude(n: Number, length: nat)
    requires AllDigits(n.digits) && |n.digits| <= length
    ensures Magnitude(n) == Shift(Append(DigitsValue(n.digits), length - |n.digits|) as real,
                                  |n.digits| + n.scale - length)
  {
    var extra := length - |n.digits|;
    ShiftWhole(DigitsValue(n.digits), extra);
    ShiftAdd(DigitsValue(n.digits) as real, extra, n.scale - extra);
  }

  /** `CompareAbsolute` orders non-zero magnitudes as numbers. */
  lemma CompareAbsoluteIs(a: Number, b: Number)
    requires Canonical(a) && Canonical(b) && a != ZERO && b != ZERO
    ensures CompareAbsolute(a, b) < 0 <==> Magnitude(a) < Magnitude(b)
    ensures CompareAbsolute(a, b) == 0 <==> Magnitude(a) == Magnitude(b)
  {
    var ma, mb := |a.digits| + a.scale, |b.digits| + b.scale;
    MagnitudeBounds(a);
    MagnitudeBounds(b);
    if ma < mb {
      ShiftGrows(ma, mb - 1);
    } else if mb < ma {
      ShiftGrows(mb, ma - 1);
    } else {
      SameLeadingPlace(a, b);
    }
  }

  lemma SameLeadingPlace(a: Number, b: Number)
    requires Canonical(a) && Canonical(b) && |a.digits| + a.scale == |b.digits| + b.scale
    ensures CompareFrom(a.digits, b.digits, 0) < 0 <==> Magnitude(a) < Magnitude(b)
    ensures CompareFrom(a.digits, b.digits, 0) == 0 <==> Magnitude(a) == Magnitude(b)
  {
    var n := Longer(a.digits, b.digits);
    CompareFromIs(a.digits, b.digits, 0);
    PadValue(a.digits, n);
    PadValue(b.digits, n);
    PaddedMagnitude(a, n);
    PaddedMagnitude(b, n);
    ShiftOrder(DigitsValue(Pad(a.digits, n)) as real, DigitsValue(Pad(b.digits, n)) as real,
               |a.digits| + a.scale - n);
  }

  /** Zero is compared as if its leading digit stood at the place of one: just below 1. */
  lemma CompareWithZero(n: Number)
    requires Canonical(n) && n != ZERO
    ensures Magnitude(n) >= 1.0 ==> CompareAbsolute(ZERO, n) < 0 && CompareAbsolute(n, ZERO) > 0
    ensures Magnitude(n) < 1.0 ==> CompareAbsolute(ZERO, n) > 0 && CompareAbsolute(n, ZERO) < 0
  {
    var m := |n.digits| + n.scale;
    MagnitudeBounds(n);
    if m >= 1 {
      ShiftGrows(0, m - 1);
    } else {
      ShiftGrows(m, 0);
    }
  }

  /** The order the comparison really implements: the usual one, except that zero sits just below 1. */
  ghost predicate ListedBefore(x: real, y: real) {
    if x == 0.0 then y >= 1.0
    else if y == 0.0 then x < 1.0
    else x < y
  }

  /** The comparison is that order, and is zero exactly on equal values. */
  lemma CompareIsListedOrder(a: Number, b: Number)
    requires Canonical(a) && Canonical(b)
    ensures Compare(a, b) < 0 <==> ListedBefore(NumberValue(a), NumberValue(b))
    ensures Compare(a, b) > 0 <==> ListedBefore(NumberValue(b), NumberValue(a))
    ensures Compare(a, b) == 0 <==> NumberValue(a) == NumberValue(b)
  {
    ZeroValue(a);
    ZeroValue(b);
    if a == ZERO && b != ZERO {
      MagnitudeBounds(b);
      CompareWithZero(b);
    } else if a != ZERO && b == ZERO {
      MagnitudeBounds(a);
      CompareWithZero(a);
    } else if a != ZERO && b != ZERO {
      MagnitudeBounds(a);
      MagnitudeBounds(b);
      CompareAbsoluteIs(a, b);
      CompareAbsoluteIs(b, a);
    }
  }

  /**
   `CompareNumbers` on accepted literals: total, antisymmetric, transitive, zero exactly on equal
   values; and in agreement with the numbers exactly when it is not zero against a positive below 1.
   */
  lemma CompareNumbersIsTotalOrder(x: string, y: string, z: string)
    requires IsLiteral(x) && TryNormalize(x).Some?
    requires IsLiteral(y) && TryNormalize(y).Some?
    requires IsLiteral(z) && TryNormalize(z).Some?
    ensures var a, b, c := TryNormalize(x).value, TryNormalize(y).value, TryNormalize(z).value;
      && (Compare(a, b) == 0 <==> ValueOf(x) == ValueOf(y))
      && (Compare(a, b) < 0 <==> Compare(b, a) > 0)
      && (Compare(a, b) <= 0 && Compare(b, c) <= 0 ==> Compare(a, c) <= 0)
      && ((Compare(a, b) < 0 <==> ValueOf(x) < ValueOf(y))
          <==> !(ValueOf(x) == 0.0 && 0.0 < ValueOf(y) < 1.0) && !(ValueOf(y) == 0.0 && 0.0 < ValueOf(x) < 1.0))
  {
    var a, b, c := TryNormalize(x).value, TryNormalize(y).value, TryNormalize(z).value;
    NormalizePreservesValue(Split(x));
    NormalizePreservesValue(Split(y));
    NormalizePreservesValue(Split(z));
    CompareIsListedOrder(a, b);
    CompareIsListedOrder(b, c);
    CompareIsListedOrder(a, c);
    CompareIsListedOrder(b, a);
  }

  /** The exception is real: zero is listed above one half. */
  lemma ZeroAboveOneHalf()
    ensures IsLiteral("0") && IsLiteral("0.5")
    ensures TryNormalize("0") == Some(ZERO) && TryNormalize("0.5") == Some(Number(false, "5", -1))
    ensures Compare(ZERO, Number(false, "5", -1)) > 0
  {
    var half := Literal(false, "0", Some("5"), None);
    var zero := Literal(false, "0", None, None);
    SplitInverts(half);
    SplitInverts(zero);
    assert Text(half) == "0.5";
    assert Text(zero) == "0";
    assert TrimStart("0") == "" by { assert "0"[1..] == ""; }
    assert "0" + "5" == "05";
    assert TrimStart("05") == "5" by { assert "05"[1..] == "5"; }
    assert TrailingZeros("5") == 0;
    assert "5"[..1] == "5";
    assert half.whole + FractionDigits(half) == "05";
    assert Normalize(half) == Number(false, "5", -1);
  }
}
