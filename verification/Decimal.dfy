/**
 The numbers of EmbeddedContextProtocol.cs: JSON number literals (section 6 of RFC 8259), the
 normal form they are reduced to, the canonical key, and the comparison used by the schema.
 */
module Decimal {
  import opened Optional
  import opened DecimalPoint

  const MAXIMUM_CHARACTERS := 256

  // ---- literals ------------------------------------------------------------------------------

  predicate IsDigit(c: char) { '0' <= c <= '9' }

  predicate AllDigits(s: string) { forall i | 0 <= i < |s| :: IsDigit(s[i]) }

  datatype Exponent = Exponent(mark: char, text: string)

  datatype Literal = Literal(negative: bool, whole: string, fraction: Option<string>, exponent: Option<Exponent>)

  predicate IsSign(c: char) { c == '-' || c == '+' }

  function Unsigned(s: string): string {
    if |s| > 0 && IsSign(s[0]) then s[1..] else s
  }

  /** The grammar of section 6: no leading zeros, no empty fraction, no empty exponent. */
  predicate WellFormed(l: Literal) {
    && |l.whole| > 0 && AllDigits(l.whole) && (l.whole[0] == '0' ==> |l.whole| == 1)
    && (l.fraction.Some? ==> |l.fraction.value| > 0 && AllDigits(l.fraction.value))
    && (l.exponent.Some? ==>
          && (l.exponent.value.mark == 'e' || l.exponent.value.mark == 'E')
          && |Unsigned(l.exponent.value.text)| > 0 && AllDigits(Unsigned(l.exponent.value.text)))
  }

  function FractionText(l: Literal): string {
    if l.fraction.Some? then "." + l.fraction.value else ""
  }

  function ExponentText(l: Literal): string {
    if l.exponent.Some? then [l.exponent.value.mark] + l.exponent.value.text else ""
  }

  function Text(l: Literal): string {
    (if l.negative then "-" else "") + (l.whole + FractionText(l) + ExponentText(l))
  }

  predicate IsMark(c: char) { c == 'e' || c == 'E' }

  /** The first index at or after `start` of a character that starts an exponent; the length if none. */
  function MarkIndex(s: string, start: nat): (r: nat)
    requires start <= |s|
    ensures start <= r <= |s|
    ensures forall k | start <= k < r :: !IsMark(s[k])
    ensures r < |s| ==> IsMark(s[r])
    decreases |s| - start
  {
    if start == |s| || IsMark(s[start]) then start else MarkIndex(s, start + 1)
  }

  function PointIndex(s: string, start: nat): (r: nat)
    requires start <= |s|
    ensures start <= r <= |s|
    ensures forall k | start <= k < r :: s[k] != '.'
    ensures r < |s| ==> s[r] == '.'
    decreases |s| - start
  {
    if start == |s| || s[start] == '.' then start else PointIndex(s, start + 1)
  }

  /** Cuts the text after the sign where the program cuts it. */
  function SplitBody(negative: bool, body: string): Literal {
    var mark := MarkIndex(body, 0);
    var point := PointIndex(body[..mark], 0);
    Literal(
      negative,
      body[..point],
      if point < mark then Some(body[point + 1..mark]) else None,
      if mark < |body| then Some(Exponent(body[mark], body[mark + 1..])) else None)
  }

  function Split(raw: string): Literal {
    if |raw| > 0 && raw[0] == '-' then SplitBody(true, raw[1..]) else SplitBody(false, raw)
  }

  /** What `JsonElement` reports as a number: its raw text follows the grammar. */
  predicate IsLiteral(raw: string) { WellFormed(Split(raw)) }

  lemma MarkIndexIs(s: string, k: nat)
    requires k <= |s| && (forall i | 0 <= i < k :: !IsMark(s[i])) && (k < |s| ==> IsMark(s[k]))
    ensures MarkIndex(s, 0) == k
  {
  }

  lemma PointIndexIs(s: string, k: nat)
    requires k <= |s| && (forall i | 0 <= i < k :: s[i] != '.') && (k < |s| ==> s[k] == '.')
    ensures PointIndex(s, 0) == k
  {
  }

  lemma SplitBodyInverts(l: Literal)
    requires WellFormed(l)
    ensures SplitBody(l.negative, l.whole + FractionText(l) + ExponentText(l)) == l
  {
    var significand := l.whole + FractionText(l);
    var body := significand + ExponentText(l);
    MarkAfterSignificand(l, significand, body);
    PointAfterWhole(l, significand);
    assert body[..|significand|] == significand;
    assert body[..|l.whole|] == significand[..|l.whole|];
    if l.fraction.Some? {
      assert body[|l.whole| + 1..|significand|] == significand[|l.whole| + 1..];
    }
  }

  lemma MarkAfterSignificand(l: Literal, significand: string, body: string)
    requires WellFormed(l) && significand == l.whole + FractionText(l) && body == significand + ExponentText(l)
    ensures MarkIndex(body, 0) == |significand|
    ensures l.exponent.Some? ==>
      |significand| < |body| && Exponent(body[|significand|], body[|significand| + 1..]) == l.exponent.value
    ensures l.exponent.None? ==> |significand| == |body|
  {
    forall i | 0 <= i < |significand| ensures !IsMark(body[i]) {
      assert body[i] == significand[i];
    }
    MarkIndexIs(body, |significand|);
    if l.exponent.Some? {
      assert body[|significand| + 1..] == l.exponent.value.text;
    }
  }

  lemma PointAfterWhole(l: Literal, significand: string)
    requires WellFormed(l) && significand == l.whole + FractionText(l)
    ensures PointIndex(significand, 0) == |l.whole| && significand[..|l.whole|] == l.whole
    ensures l.fraction.Some? ==>
      |l.whole| < |significand| && significand[|l.whole| + 1..] == l.fraction.value
    ensures l.fraction.None? ==> |l.whole| == |significand|
  {
    PointIndexIs(significand, |l.whole|);
    if l.fraction.Some? {
      assert significand[|l.whole| + 1..] == l.fraction.value;
    }
  }

  /** The texts of the grammar are exactly the accepted raw texts, each cut into its own parts. */
  lemma SplitInverts(l: Literal)
    requires WellFormed(l)
    ensures Split(Text(l)) == l && IsLiteral(Text(l))
  {
    SplitTextIs(l);
  }

  lemma SplitTextIs(l: Literal)
    requires WellFormed(l)
    ensures Split(Text(l)) == l
  {
    SplitBodyInverts(l);
    var body := l.whole + FractionText(l) + ExponentText(l);
    assert body[0] == l.whole[0] && IsDigit(l.whole[0]);
    if l.negative {
      SplitsOffSign(body);
    } else {
      assert Text(l) == body;
      SplitsWhole(body);
    }
  }

  lemma SplitsOffSign(body: string)
    ensures Split("-" + body) == SplitBody(true, body)
  {
    assert ("-" + body)[1..] == body;
  }

  lemma SplitsWhole(body: string)
    requires |body| > 0 && body[0] != '-'
    ensures Split(body) == SplitBody(false, body)
  {
  }

  lemma SplitBodyIsExact(negative: bool, body: string)
    ensures var l := SplitBody(negative, body);
      l.whole + FractionText(l) + ExponentText(l) == body
  {
    var mark := MarkIndex(body, 0);
    var point := PointIndex(body[..mark], 0);
    var l := SplitBody(negative, body);
    assert l.whole + FractionText(l) == body[..mark];
    assert body[..mark] + ExponentText(l) == body;
  }

  /** Nothing of a raw text is lost when it is cut. */
  lemma TextInverts(raw: string)
    ensures Text(Split(raw)) == raw
  {
    if |raw| > 0 && raw[0] == '-' {
      SplitBodyIsExact(true, raw[1..]);
    } else {
      SplitBodyIsExact(false, raw);
    }
  }

  // ---- values --------------------------------------------------------------------------------

  function DigitValue(c: char): nat
    requires IsDigit(c)
  {
    c as nat - '0' as nat
  }

  function DigitsValue(s: string): nat
    requires AllDigits(s)
  {
    if s == "" then 0 else 10 * DigitsValue(s[..|s| - 1]) + DigitValue(s[|s| - 1])
  }

  /** The digits after the decimal point: tenths, hundredths and so on. */
  ghost function FractionValue(s: string): real
    requires AllDigits(s)
  {
    if s == "" then 0.0 else (DigitValue(s[0]) as real + FractionValue(s[1..])) / 10.0
  }

  function SignedValue(s: string): int
    requires AllDigits(Unsigned(s))
  {
    var magnitude: int := DigitsValue(Unsigned(s));
    if |s| > 0 && s[0] == '-' then -magnitude else magnitude
  }

  ghost function Signed(negative: bool, magnitude: real): real {
    if negative then -magnitude else magnitude
  }

  function FractionDigits(l: Literal): string {
    if l.fraction.Some? then l.fraction.value else ""
  }

  function ExponentValue(l: Literal): int
    requires WellFormed(l)
  {
    if l.exponent.Some? then SignedValue(l.exponent.value.text) else 0
  }

  /** The number that section 6 of RFC 8259 makes a literal denote. */
  ghost function LiteralValue(l: Literal): real
    requires WellFormed(l)
  {
    Signed(l.negative, Shift(DigitsValue(l.whole) as real + FractionValue(FractionDigits(l)), ExponentValue(l)))
  }

  ghost function ValueOf(raw: string): real
    requires IsLiteral(raw)
  {
    LiteralValue(Split(raw))
  }

  lemma {:induction false} DigitsValueAppend(s: string, t: string)
    requires AllDigits(s) && AllDigits(t)
    ensures AllDigits(s + t)
    ensures DigitsValue(s + t) == Append(DigitsValue(s), |t|) + DigitsValue(t)
    decreases |t|
  {
    if t == "" {
      assert s + t == s;
    } else {
      var k := |t| - 1;
      DigitsValueAppend(s, t[..k]);
      assert (s + t)[..|s + t| - 1] == s + t[..k];
    }
  }

  lemma DigitsValueOne(c: char)
    requires IsDigit(c)
    ensures DigitsValue([c]) == DigitValue(c)
  {
    assert [c][..0] == "";
  }

  lemma {:induction false} FractionValueIs(s: string)
    requires AllDigits(s)
    ensures Shift(FractionValue(s), |s|) == DigitsValue(s) as real
  {
    if s != "" {
      var rest := s[1..];
      FractionValueIs(rest);
      assert s == [s[0]] + rest;
      DigitsValueAppend([s[0]], rest);
      DigitsValueOne(s[0]);
      var d, f := DigitValue(s[0]), FractionValue(rest);
      ShiftAdd(FractionValue(s), 1, |rest|);
      assert Shift(FractionValue(s), 1) == 10.0 * FractionValue(s) == d as real + f;
      ShiftSum(d as real, f, |rest|);
      ShiftWhole(d, |rest|);
    }
  }

  /** An exponent counts with its sign, and without one upwards. */
  lemma ExponentReads(digits: string)
    requires AllDigits(digits) && |digits| > 0
    ensures SignedValue(digits) == SignedValue("+" + digits) == DigitsValue(digits)
    ensures SignedValue("-" + digits) + DigitsValue(digits) == 0
  {
    assert ("+" + digits)[1..] == digits && ("-" + digits)[1..] == digits;
  }

  /** A literal denotes all its digits as one whole number, moved by the exponent and back by the fraction. */
  lemma LiteralMeans(l: Literal)
    requires WellFormed(l)
    ensures var digits := l.whole + FractionDigits(l);
      AllDigits(digits) && LiteralValue(l) == Signed(
        l.negative, Shift(DigitsValue(digits) as real, ExponentValue(l) - |FractionDigits(l)|))
  {
    var f := FractionDigits(l);
    DigitsValueAppend(l.whole, f);
    FractionValueIs(f);
    ShiftWhole(DigitsValue(l.whole), |f|);
    ShiftSum(DigitsValue(l.whole) as real, FractionValue(f), |f|);
    ShiftAdd(DigitsValue(l.whole) as real + FractionValue(f), |f|, ExponentValue(l) - |f|);
  }

  // ---- the normal form -----------------------------------------------------------------------

  datatype Number = Number(negative: bool, digits: string, scale: int)

  const ZERO := Number(false, "0", 0)

  /** No leading and no trailing zero, and a single form for zero. */
  predicate Canonical(n: Number) {
    && AllDigits(n.digits) && |n.digits| > 0
    && (n.digits[0] == '0' ==> n == ZERO)
    && (n.digits[|n.digits| - 1] == '0' ==> n == ZERO)
  }

  ghost function Magnitude(n: Number): real
    requires AllDigits(n.digits)
  {
    Shift(DigitsValue(n.digits) as real, n.scale)
  }

  ghost function NumberValue(n: Number): real
    requires AllDigits(n.digits)
  {
    Signed(n.negative, Magnitude(n))
  }

  function TrimStart(s: string): string {
    if |s| > 0 && s[0] == '0' then TrimStart(s[1..]) else s
  }

  /** How many trailing zeros there are, the first digit never counted among them. */
  function TrailingZeros(s: string): (r: nat)
    ensures r < |s| || r == |s| == 0
    ensures forall k | |s| - r <= k < |s| :: s[k] == '0'
    ensures |s| > 0 ==> r == |s| - 1 || s[|s| - 1 - r] != '0'
  {
    if |s| > 1 && s[|s| - 1] == '0' then 1 + TrailingZeros(s[..|s| - 1]) else 0
  }

  /** All digits of a literal as one integer, `decimals` of them after the point. */
  function NormalizeDigits(negative: bool, all: string, decimals: nat, exponent: int): Number {
    var digits := TrimStart(all);
    if digits == "" then ZERO
    else
      var zeros := TrailingZeros(digits);
      Number(negative, digits[..|digits| - zeros], exponent - decimals + zeros)
  }

  function Normalize(l: Literal): Number
    requires WellFormed(l)
  {
    NormalizeDigits(l.negative, l.whole + FractionDigits(l), |FractionDigits(l)|, ExponentValue(l))
  }

  /** `TryNormalize`: fails only on an over-long literal. */
  function TryNormalize(raw: string): Option<Number>
    requires IsLiteral(raw)
  {
    if |raw| == 0 || |raw| > MAXIMUM_CHARACTERS then None else Some(Normalize(Split(raw)))
  }

  lemma {:induction false} TrimStartKeepsValue(s: string)
    requires AllDigits(s)
    ensures AllDigits(TrimStart(s)) && DigitsValue(TrimStart(s)) == DigitsValue(s)
    ensures TrimStart(s) != "" ==> TrimStart(s)[0] != '0'
    decreases |s|
  {
    if |s| > 0 && s[0] == '0' {
      TrimStartKeepsValue(s[1..]);
      assert s == ['0'] + s[1..];
      DigitsValueAppend(['0'], s[1..]);
      DigitsValueOne('0');
      AppendOrder(0, 0, |s| - 1);
      AppendOfZero(|s| - 1);
    }
  }

  lemma {:induction false} AppendOfZero(n: nat)
    ensures Append(0, n) == 0
  {
    if n > 0 {
      AppendOfZero(n - 1);
    }
  }

  lemma {:induction false} ZerosValue(s: string)
    requires forall k | 0 <= k < |s| :: s[k] == '0'
    ensures AllDigits(s) && DigitsValue(s) == 0
  {
    if s != "" {
      ZerosValue(s[..|s| - 1]);
    }
  }

  lemma CutZeros(s: string, zeros: nat)
    requires AllDigits(s) && zeros <= |s|
    requires forall k | |s| - zeros <= k < |s| :: s[k] == '0'
    ensures DigitsValue(s) == Append(DigitsValue(s[..|s| - zeros]), zeros)
  {
    var head, tail := s[..|s| - zeros], s[|s| - zeros..];
    assert s == head + tail;
    ZerosValue(tail);
    DigitsValueAppend(head, tail);
  }

  /** Both parts of the significand read together as one integer. */
  lemma SignificandValue(l: Literal)
    requires WellFormed(l)
    ensures AllDigits(l.whole + FractionDigits(l))
    ensures Shift(DigitsValue(l.whole) as real + FractionValue(FractionDigits(l)), |FractionDigits(l)|)
      == DigitsValue(l.whole + FractionDigits(l)) as real
  {
    var fraction := FractionDigits(l);
    DigitsValueAppend(l.whole, fraction);
    FractionValueIs(fraction);
    ShiftSum(DigitsValue(l.whole) as real, FractionValue(fraction), |fraction|);
    ShiftWhole(DigitsValue(l.whole), |fraction|);
  }

  /** A significand of `f` decimals equals a coefficient whose `zeros` trailing zeros were cut. */
  lemma ScaleMoves(significand: real, d: int, f: nat, zeros: nat, exponent: int)
    requires Shift(significand, f) == Append(d, zeros) as real
    ensures Shift(significand, exponent) == Shift(d as real, exponent - f + zeros)
  {
    ShiftWhole(d, zeros);
    ShiftAdd(significand, f, exponent - f);
    ShiftAdd(d as real, zeros, exponent - f);
  }

  lemma NormalizeDigitsValue(negative: bool, significand: real, all: string, decimals: nat, exponent: int)
    requires AllDigits(all) && Shift(significand, decimals) == DigitsValue(all) as real
    ensures var n := NormalizeDigits(negative, all, decimals, exponent);
      Canonical(n) && NumberValue(n) == Signed(negative, Shift(significand, exponent))
  {
    var digits := TrimStart(all);
    TrimStartKeepsValue(all);
    if digits == "" {
      ShiftZero(decimals);
      ShiftOrder(significand, 0.0, decimals);
      ShiftZero(exponent);
      DigitsValueOne('0');
    } else {
      var zeros := TrailingZeros(digits);
      CutZeros(digits, zeros);
      ScaleMoves(significand, DigitsValue(digits[..|digits| - zeros]), decimals, zeros, exponent);
    }
  }

  /** Normalising changes nothing but the way a number is written. */
  lemma NormalizePreservesValue(l: Literal)
    requires WellFormed(l)
    ensures Canonical(Normalize(l)) && NumberValue(Normalize(l)) == LiteralValue(l)
  {
    SignificandValue(l);
    var f, exponent := FractionDigits(l), ExponentValue(l);
    var significand := DigitsValue(l.whole) as real + FractionValue(f);
    NormalizeDigitsValue(l.negative, significand, l.whole + f, |f|, exponent);
    assert LiteralValue(l) == Signed(l.negative, Shift(significand, exponent));
    assert Normalize(l) == NormalizeDigits(l.negative, l.whole + f, |f|, exponent);
  }

  // ---- uniqueness ----------------------------------------------------------------------------

  lemma {:induction false} DigitsBounds(s: string)
    requires AllDigits(s)
    ensures DigitsValue(s) < Append(1, |s|)
    ensures |s| > 0 && s[0] != '0' ==> Append(1, |s| - 1) <= DigitsValue(s)
    decreases |s|
  {
    if |s| > 0 {
      DigitsBounds(s[..|s| - 1]);
    }
  }

  lemma {:induction false} DigitsInjective(s: string, t: string)
    requires AllDigits(s) && AllDigits(t) && |s| == |t| && DigitsValue(s) == DigitsValue(t)
    ensures s == t
    decreases |s|
  {
    if |s| > 0 {
      var k := |s| - 1;
      DigitsInjective(s[..k], t[..k]);
      assert s == s[..k] + [s[k]] && t == t[..k] + [t[k]];
    }
  }

  /** The place of the leading digit brackets the magnitude between two powers of ten. */
  lemma MagnitudeBounds(n: Number)
    requires Canonical(n) && n != ZERO
    ensures Shift(1.0, |n.digits| + n.scale - 1) <= Magnitude(n) < Shift(1.0, |n.digits| + n.scale)
    ensures Magnitude(n) > 0.0
  {
    var k := |n.digits|;
    DigitsBounds(n.digits);
    var v := DigitsValue(n.digits) as real;
    ShiftWhole(1, k);
    ShiftWhole(1, k - 1);
    ShiftAdd(1.0, k, n.scale);
    ShiftAdd(1.0, k - 1, n.scale);
    ShiftOrder(v, Shift(1.0, k), n.scale);
    ShiftOrder(v, Shift(1.0, k - 1), n.scale);
    ShiftGrows(k + n.scale - 1, k + n.scale);
  }

  lemma ZeroValue(n: Number)
    requires Canonical(n)
    ensures NumberValue(n) == 0.0 <==> n == ZERO
    ensures n != ZERO ==> (NumberValue(n) < 0.0 <==> n.negative)
  {
    if n == ZERO {
      DigitsValueOne('0');
    } else {
      MagnitudeBounds(n);
    }
  }

  /** A larger scale would make the other coefficient a multiple of ten, and end in zero. */
  lemma ScalesAgree(a: Number, b: Number)
    requires Canonical(a) && Canonical(b) && a != ZERO && b != ZERO && Magnitude(a) == Magnitude(b)
    ensures a.scale >= b.scale
  {
    if a.scale < b.scale {
      CommonScale(DigitsValue(a.digits), a.scale, DigitsValue(b.digits), b.scale);
    }
  }

  /** Numbers of equal magnitude are bracketed by the same powers of ten. */
  lemma LengthsAgree(a: Number, b: Number)
    requires Canonical(a) && Canonical(b) && a != ZERO && b != ZERO && Magnitude(a) == Magnitude(b)
    ensures |a.digits| + a.scale >= |b.digits| + b.scale
  {
    MagnitudeBounds(a);
    MagnitudeBounds(b);
    if |a.digits| + a.scale < |b.digits| + b.scale {
      ShiftGrows(|a.digits| + a.scale, |b.digits| + b.scale - 1);
    }
  }

  /** Two normal forms of the same number are the same. */
  lemma CanonicalIsUnique(a: Number, b: Number)
    requires Canonical(a) && Canonical(b) && NumberValue(a) == NumberValue(b)
    ensures a == b
  {
    ZeroValue(a);
    ZeroValue(b);
    if a != ZERO && b != ZERO {
      ScalesAgree(a, b);
      ScalesAgree(b, a);
      LengthsAgree(a, b);
      LengthsAgree(b, a);
      ShiftOrder(DigitsValue(a.digits) as real, DigitsValue(b.digits) as real, a.scale);
      DigitsInjective(a.digits, b.digits);
    }
  }
}
