/** Moving the decimal point: multiplication by a power of ten, positive or negative, without products. */
module DecimalPoint {
  /** `x` times ten to the power `k`. */
  ghost function Shift(x: real, k: int): real
    decreases if k < 0 then -k else k
  {
    if k == 0 then x else if k > 0 then 10.0 * Shift(x, k - 1) else Shift(x, k + 1) / 10.0
  }

  /** An integer with `n` zeros appended. */
  function Append(d: int, n: nat): int {
    if n == 0 then d else 10 * Append(d, n - 1)
  }

  lemma ShiftStep(x: real, k: int)
    ensures Shift(x, k + 1) == 10.0 * Shift(x, k)
  {
    if k < 0 {
      assert Shift(x, k) == Shift(x, k + 1) / 10.0;
    }
  }

  lemma {:induction false} ShiftAdd(x: real, a: int, b: int)
    ensures Shift(Shift(x, a), b) == Shift(x, a + b)
    decreases if b < 0 then -b else b
  {
    if b > 0 {
      ShiftAdd(x, a, b - 1);
      ShiftStep(x, a + (b - 1));
    } else if b < 0 {
      ShiftAdd(x, a, b + 1);
      ShiftStep(x, a + b);
    }
  }

  lemma {:induction false} ShiftOrder(x: real, y: real, k: int)
    ensures x < y <==> Shift(x, k) < Shift(y, k)
    ensures x == y <==> Shift(x, k) == Shift(y, k)
    decreases if k < 0 then -k else k
  {
    if k > 0 {
      ShiftOrder(x, y, k - 1);
    } else if k < 0 {
      ShiftOrder(x, y, k + 1);
    }
  }

  lemma {:induction false} ShiftZero(k: int)
    ensures Shift(0.0, k) == 0.0
    decreases if k < 0 then -k else k
  {
    if k > 0 {
      ShiftZero(k - 1);
    } else if k < 0 {
      ShiftZero(k + 1);
    }
  }

  lemma {:induction false} ShiftSum(x: real, y: real, k: nat)
    ensures Shift(x + y, k) == Shift(x, k) + Shift(y, k)
  {
    if k > 0 {
      ShiftSum(x, y, k - 1);
    }
  }

  lemma {:induction false} ShiftWhole(d: int, n: nat)
    ensures Shift(d as real, n) == Append(d, n) as real
  {
    if n > 0 {
      ShiftWhole(d, n - 1);
    }
  }

  lemma {:induction false} ShiftGrows(a: int, b: int)
    requires a <= b
    ensures 0.0 < Shift(1.0, a) <= Shift(1.0, b)
    decreases b - a
  {
    if a < b {
      ShiftGrows(a, b - 1);
      ShiftStep(1.0, b - 1);
    } else {
      ShiftOrder(0.0, 1.0, a);
      ShiftZero(a);
    }
  }

  /** Two shifted integers compare as the integers do once they have a common scale. */
  lemma CommonScale(a: int, i: int, b: int, j: int)
    requires i <= j
    ensures Shift(a as real, i) < Shift(b as real, j) <==> a < Append(b, j - i)
    ensures Shift(a as real, i) == Shift(b as real, j) <==> a == Append(b, j - i)
  {
    ShiftAdd(b as real, j - i, i);
    ShiftWhole(b, j - i);
    ShiftOrder(a as real, Append(b, j - i) as real, i);
  }

  lemma {:induction false} AppendOrder(a: int, b: int, n: nat)
    ensures a < b <==> Append(a, n) < Append(b, n)
    ensures a == b <==> Append(a, n) == Append(b, n)
  {
    if n > 0 {
      AppendOrder(a, b, n - 1);
    }
  }
}
