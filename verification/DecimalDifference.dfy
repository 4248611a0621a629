/**
  `_decimal_difference` (tools/comfy_confidence.py): subtracting two finite decimals in a context whose
  precision is computed from the operands, with the `Inexact` trap set.

  The exponent range of the context is unbounded here, as `MIN_EMIN` and `MAX_EMAX` are meant to make it.
 */
module DecimalDifference {
  import opened Integers
  import opened Wrappers

  const MAX_DECIMAL_PRECISION := 100000

  /** A finite decimal: sign, coefficient and exponent of ten. */
  datatype Decimal = Decimal(negative: bool, coefficient: nat, exponent: int)

  datatype Error = Exceeds | Inexact

  function Pow10(n: nat): (p: nat)
    ensures p > 0
  {
    if n == 0 then 1 else 10 * Pow10(n - 1)
  }

  /** The length of `as_tuple().digits`. */
  function DigitCount(n: nat): (count: nat)
    ensures count > 0
  {
    if n < 10 then 1 else DigitCount(n / 10) + 1
  }

  predicate IsZero(d: Decimal) {
    d.coefficient == 0
  }

  /** The value of `d` in units of ten to the `e`; a zero is zero in any unit. */
  function Units(d: Decimal, e: int): int
    requires IsZero(d) || e <= d.exponent
  {
    if IsZero(d) then 0
    else
      var magnitude := d.coefficient * Pow10(d.exponent - e);
      if d.negative then -magnitude else magnitude
  }

  /** Python's `==` on decimals compares values. */
  predicate Equal(left: Decimal, right: Decimal) {
    var e := Min(left.exponent, right.exponent);
    Units(left, e) == Units(right, e)
  }

  /** The smallest exponent among the operands that are not zero. */
  function MinimumExponent(left: Decimal, right: Decimal): int
    requires !IsZero(left) || !IsZero(right)
  {
    if IsZero(left) then right.exponent
    else if IsZero(right) then left.exponent
    else Min(left.exponent, right.exponent)
  }

  /** Digits of one operand, counted down to the common exponent. */
  function Width(d: Decimal, e: int): int {
    DigitCount(d.coefficient) + d.exponent - e
  }

  function Precision(left: Decimal, right: Decimal): int
    requires !IsZero(left) || !IsZero(right)
  {
    var e := MinimumExponent(left, right);
    1 + if IsZero(left) then Width(right, e) else if IsZero(right) then Width(left, e) else Max(Width(left, e), Width(right, e))
  }

  /** An operation with exact result `units` times ten to the `e`, in a context of `precision` digits: low
      digits beyond the precision are dropped, and dropping anything but zeros is trapped. */
  function InContext(units: int, e: int, precision: nat): Result<Decimal, Error>
    requires precision > 0
  {
    var magnitude := Abs(units);
    var surplus := DigitCount(magnitude) - precision;
    if surplus <= 0 then Success(Decimal(units < 0, magnitude, e))
    else if magnitude % Pow10(surplus) == 0 then Success(Decimal(units < 0, magnitude / Pow10(surplus), e + surplus))
    else Failure(Inexact)
  }

  function ExactUnits(left: Decimal, right: Decimal): int
    requires !IsZero(left) || !IsZero(right)
  {
    var e := MinimumExponent(left, right);
    Units(left, e) - Units(right, e)
  }

  function AbsoluteDifference(left: Decimal, right: Decimal): Result<Decimal, Error> {
    if Equal(left, right) then Success(Decimal(false, 0, 0))
    else
      var precision := Precision(left, right);
      if precision > MAX_DECIMAL_PRECISION then Failure(Exceeds)
      else
        PrecisionIsPositive(left, right);
        match InContext(ExactUnits(left, right), MinimumExponent(left, right), precision)
        case Failure(error) => Failure(error)
        case Success(d) => Success(d.(negative := false))
  }

  lemma PrecisionIsPositive(left: Decimal, right: Decimal)
    requires !Equal(left, right)
    ensures !IsZero(left) || !IsZero(right)
    ensures Precision(left, right) > 0
  {
  }

  // ---- digits -------------------------------------------------------------

  lemma {:induction false} PowersAdd(a: nat, b: nat)
    ensures Pow10(a + b) == Pow10(a) * Pow10(b)
  {
    if a > 0 {
      PowersAdd(a - 1, b);
      Regroup(Pow10(a - 1), Pow10(b));
    }
  }

  lemma Regroup(x: nat, y: nat)
    ensures 10 * (x * y) == (10 * x) * y
  {
  }

  lemma {:induction false} PowersGrow(a: nat, b: nat)
    requires a <= b
    ensures Pow10(a) <= Pow10(b)
    decreases b
  {
    if a < b {
      PowersGrow(a, b - 1);
    }
  }

  lemma {:induction false} DigitsBoundBelow(n: nat)
    ensures n < Pow10(DigitCount(n))
  {
    if n >= 10 {
      DigitsBoundBelow(n / 10);
    } else {
      assert Pow10(1) == 10 * Pow10(0);
    }
  }

  /** A number below a power of ten has at most that many digits. */
  lemma {:induction false} DigitsBoundAbove(n: nat, k: nat)
    requires k >= 1 && n < Pow10(k)
    ensures DigitCount(n) <= k
  {
    if n >= 10 {
      assert Pow10(k) == 10 * Pow10(k - 1);
      assert Pow10(0) == 1;
      if k == 1 {
        assert false;
      }
      DigitsBoundAbove(n / 10, k - 1);
    }
  }

  lemma Monotone(a: nat, b: nat, c: nat)
    requires a < b && c > 0
    ensures a * c < b * c
  {
  }

  lemma UnitsAreBounded(d: Decimal, e: int)
    requires IsZero(d) || e <= d.exponent
    ensures !IsZero(d) ==> Abs(Units(d, e)) < Pow10(Width(d, e))
    ensures IsZero(d) ==> Units(d, e) == 0
  {
    if !IsZero(d) {
      var shift := d.exponent - e;
      DigitsBoundBelow(d.coefficient);
      Monotone(d.coefficient, Pow10(DigitCount(d.coefficient)), Pow10(shift));
      PowersAdd(DigitCount(d.coefficient), shift);
      NonNegativeProduct(d.coefficient, Pow10(shift));
    }
  }

  lemma NonNegativeProduct(a: nat, b: nat)
    ensures a * b >= 0
  {
  }

  /** The computed precision always suffices: the exact difference is a whole number of units at the smallest
      exponent, with at most that many digits. */
  lemma PrecisionSuffices(left: Decimal, right: Decimal)
    requires !Equal(left, right)
    ensures !IsZero(left) || !IsZero(right)
    ensures DigitCount(Abs(ExactUnits(left, right))) <= Precision(left, right)
  {
    PrecisionIsPositive(left, right);
    var e := MinimumExponent(left, right);
    var digits := Precision(left, right) - 1;
    UnitsAreBounded(left, e);
    UnitsAreBounded(right, e);
    if !IsZero(left) {
      PowersGrow(Width(left, e), digits);
    }
    if !IsZero(right) {
      PowersGrow(Width(right, e), digits);
    }
    assert Pow10(digits + 1) == 10 * Pow10(digits);
    DigitsBoundAbove(Abs(ExactUnits(left, right)), digits + 1);
  }

  /** The subtraction fails only for operands too far apart, never because a digit was lost, and what it
      returns is the exact distance. */
  lemma DifferenceIsExact(left: Decimal, right: Decimal)
    requires !Equal(left, right)
    ensures !IsZero(left) || !IsZero(right)
    ensures AbsoluteDifference(left, right).Success? <==> Precision(left, right) <= MAX_DECIMAL_PRECISION
    ensures AbsoluteDifference(left, right) != Failure(Inexact)
    ensures AbsoluteDifference(left, right).Success? ==>
              AbsoluteDifference(left, right).value == Decimal(false, Abs(ExactUnits(left, right)), MinimumExponent(left, right))
  {
    PrecisionSuffices(left, right);
  }

  // ---- one digit fewer ----------------------------------------------------

  function Nines(n: nat): nat {
    Pow10(n) - 1
  }

  lemma {:induction false} NinesHaveDigits(n: nat)
    requires n >= 1
    ensures DigitCount(Nines(n)) == n
  {
    assert Pow10(n) == 10 * Pow10(n - 1);
    if n > 1 {
      NinesHaveDigits(n - 1);
      assert Nines(n) / 10 == Nines(n - 1);
      assert Pow10(n - 1) == 10 * Pow10(n - 2);
    } else {
      assert Pow10(0) == 1;
    }
  }

  lemma {:induction false} AtLeast(m: nat, k: nat)
    requires m >= Pow10(k)
    ensures DigitCount(m) >= k + 1
  {
    if k == 0 {
    } else {
      assert Pow10(k) == 10 * Pow10(k - 1);
      AtLeast(m / 10, k - 1);
    }
  }

  lemma TwiceNinesHasOneMoreDigit(n: nat)
    requires n >= 1
    ensures DigitCount(2 * Nines(n)) == n + 1
  {
    assert Pow10(n + 1) == 10 * Pow10(n);
    DigitsBoundAbove(2 * Nines(n), n + 1);
    assert Pow10(n) == 10 * Pow10(n - 1);
    AtLeast(2 * Nines(n), n);
  }

  /** Twice n nines needs n + 1 digits, and its last digit is an 8. */
  lemma LastDigitIsEight(n: nat)
    requires n >= 1
    ensures 2 * Nines(n) % 10 == 8
  {
    var m := Pow10(n - 1);
    assert Pow10(n) == 10 * m;
    assert 2 * Nines(n) == 10 * (2 * m - 1) + 8;
  }

  lemma TwiceNinesIsInexact(n: nat, units: int)
    requires n >= 1 && units == 2 * Nines(n)
    ensures InContext(units, 0, n) == Failure(Inexact)
  {
    TwiceNinesHasOneMoreDigit(n);
    LastDigitIsEight(n);
    assert Pow10(0) == 1;
    assert Pow10(1) == 10;
  }

  /** The choice is tight: for every number of digits there are operands for which one digit less would lose
      something. */
  lemma OneDigitFewerFails(n: nat) returns (left: Decimal, right: Decimal)
    requires n >= 1
    ensures !Equal(left, right) && Precision(left, right) == n + 1
    ensures InContext(ExactUnits(left, right), MinimumExponent(left, right), n) == Failure(Inexact)
  {
    left, right := Decimal(false, Nines(n), 0), Decimal(true, Nines(n), 0);
    NinesHaveDigits(n);
    assert Pow10(n) == 10 * Pow10(n - 1);
    assert Pow10(0) == 1;
    assert Units(left, 0) == Nines(n) && Units(right, 0) + Nines(n) == 0;
    TwiceNinesIsInexact(n, ExactUnits(left, right));
  }

  /** Swapping the operands does not change the answer. */
  lemma DifferenceIsSymmetric(left: Decimal, right: Decimal)
    ensures AbsoluteDifference(left, right) == AbsoluteDifference(right, left)
  {
    assert Equal(left, right) <==> Equal(right, left);
    if !Equal(left, right) {
      DifferenceIsExact(left, right);
      DifferenceIsExact(right, left);
      assert ExactUnits(left, right) == -ExactUnits(right, left);
    }
  }

  // ---- equality of values ---------------------------------------------------

  function Times(a: int, b: int): int {
    a * b
  }

  lemma ScaledProduct(x: int, a: int, b: int)
    ensures x * (a * b) == Times(x * a, b)
    ensures -(x * (a * b)) == Times(-(x * a), b)
  {
  }

  /** In smaller units the same value has proportionally more of them. */
  lemma {:induction false} UnitsScale(d: Decimal, high: int, low: int)
    requires low <= high && (IsZero(d) || high <= d.exponent)
    ensures Units(d, low) == Times(Units(d, high), Pow10(high - low))
  {
    if !IsZero(d) {
      PowersAdd(d.exponent - high, high - low);
      ScaledProduct(d.coefficient, Pow10(d.exponent - high), Pow10(high - low));
    }
  }

  lemma Cancel(a: int, b: int, p: int)
    requires p > 0
    ensures Times(a, p) == Times(b, p) <==> a == b
  {
    if a < b {
      assert (b - a) * p > 0;
    } else if b < a {
      assert (a - b) * p > 0;
    }
  }

  /** Any common unit decides equality. */
  lemma EqualInUnits(left: Decimal, right: Decimal, e: int)
    requires e <= left.exponent && e <= right.exponent
    ensures Equal(left, right) <==> Units(left, e) == Units(right, e)
  {
    var high := Min(left.exponent, right.exponent);
    UnitsScale(left, high, e);
    UnitsScale(right, high, e);
    Cancel(Units(left, high), Units(right, high), Pow10(high - e));
  }

  lemma EqualTransitive(a: Decimal, b: Decimal, c: Decimal)
    requires Equal(a, b) && Equal(b, c)
    ensures Equal(a, c)
  {
    var e := Min(a.exponent, Min(b.exponent, c.exponent));
    EqualInUnits(a, b, e);
    EqualInUnits(b, c, e);
    EqualInUnits(a, c, e);
  }
}
