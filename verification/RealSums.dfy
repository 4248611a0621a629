/** Sums over sequences of exact reals, for the metrics of scripts/compare_attention_quality.py. */
module RealSums {

  /** The product, under a name of its own so that a fact about it carries over to equal factors. */
  function Times(x: real, y: real): real {
    x * y
  }

  function Squared(x: real): real {
    Times(x, x)
  }

  function Abs(x: real): real {
    if x < 0.0 then -x else x
  }

  function Larger(x: real, y: real): real {
    if x <= y then y else x
  }

  function Smaller(x: real, y: real): real {
    if x <= y then x else y
  }

  function Sum(xs: seq<real>): real {
    if xs == [] then 0.0 else xs[0] + Sum(xs[1..])
  }

  /** The sum of the element-wise product. */
  function Dot(l: seq<real>, r: seq<real>): real
    requires |l| == |r|
  {
    if l == [] then 0.0 else Times(l[0], r[0]) + Dot(l[1..], r[1..])
  }

  function AbsoluteError(l: seq<real>, r: seq<real>): real
    requires |l| == |r|
  {
    if l == [] then 0.0 else Abs(l[0] - r[0]) + AbsoluteError(l[1..], r[1..])
  }

  function LargestError(l: seq<real>, r: seq<real>): real
    requires |l| == |r|
  {
    if l == [] then 0.0 else Larger(Abs(l[0] - r[0]), LargestError(l[1..], r[1..]))
  }

  function Lowest(xs: seq<real>): real
    requires xs != []
  {
    if |xs| == 1 then xs[0] else Smaller(xs[0], Lowest(xs[1..]))
  }

  function Highest(xs: seq<real>): real
    requires xs != []
  {
    if |xs| == 1 then xs[0] else Larger(xs[0], Highest(xs[1..]))
  }

  // ---- products ---------------------------------------------------------------

  lemma Commute(x: real, y: real)
    ensures Times(x, y) == Times(y, x)
  {
  }

  lemma Distribute(x: real, y: real, z: real)
    ensures Times(x, y + z) == Times(x, y) + Times(x, z)
    ensures Times(x, y - z) == Times(x, y) - Times(x, z)
  {
  }

  lemma Associate(x: real, y: real, z: real)
    ensures Times(Times(x, y), z) == Times(x, Times(y, z))
  {
  }

  lemma Negate(x: real, y: real)
    ensures Times(-x, y) == -Times(x, y)
    ensures Times(x, -y) == -Times(x, y)
    ensures Times(-x, -y) == Times(x, y)
  {
  }

  lemma PositiveProduct(x: real, y: real)
    requires x > 0.0 && y > 0.0
    ensures x * y > 0.0
  {
  }

  lemma Monotone(n: real, x: real, y: real)
    requires n >= 0.0 && x <= y
    ensures Times(n, x) <= Times(n, y)
    ensures n > 0.0 && x < y ==> Times(n, x) < Times(n, y)
  {
    var d := y - x;
    assert Times(n, y) == Times(n, x) + n * d;
    if n > 0.0 && d > 0.0 {
      PositiveProduct(n, d);
    }
  }

  lemma Square(x: real)
    ensures Squared(x) >= 0.0
    ensures x != 0.0 ==> Squared(x) > 0.0
    ensures Squared(0.0) == 0.0
  {
    if x > 0.0 {
      Monotone(x, 0.0, x);
    } else if x < 0.0 {
      Monotone(-x, 0.0, -x);
      Negate(x, x);
    }
  }

  lemma BeyondOne(q: real, y: real)
    requires y > 0.0
    ensures q > 1.0 ==> Times(y, q) > y
    ensures q < 1.0 ==> Times(y, q) < y
    ensures q < -1.0 ==> Times(y, q) < -y
  {
    if q > 1.0 {
      Monotone(y, 1.0, q);
    } else if q < 1.0 {
      Monotone(y, q, 1.0);
      if q < -1.0 {
        Monotone(y, q, -1.0);
        Negate(y, 1.0);
      }
    }
  }

  lemma QuotientBounds(x: real, y: real)
    requires y > 0.0 && -y <= x <= y
    ensures -1.0 <= x / y <= 1.0
    ensures x / y == 1.0 <==> x == y
  {
    assert Times(y, x / y) == x;
    BeyondOne(x / y, y);
  }

  // ---- in parts ------------------------------------------------------------

  lemma {:induction false} SumOfConcat(a: seq<real>, b: seq<real>)
    ensures Sum(a + b) == Sum(a) + Sum(b)
  {
    if a == [] {
      assert a + b == b;
    } else {
      SumOfConcat(a[1..], b);
      assert (a + b)[1..] == a[1..] + b;
    }
  }

  lemma {:induction false} DotOfConcat(a: seq<real>, b: seq<real>, c: seq<real>, d: seq<real>)
    requires |a| == |c| && |b| == |d|
    ensures Dot(a + b, c + d) == Dot(a, c) + Dot(b, d)
  {
    if a == [] {
      assert a + b == b && c + d == d;
    } else {
      DotOfConcat(a[1..], b, c[1..], d);
      assert (a + b)[1..] == a[1..] + b && (c + d)[1..] == c[1..] + d;
    }
  }

  lemma {:induction false} ErrorsOfConcat(a: seq<real>, b: seq<real>, c: seq<real>, d: seq<real>)
    requires |a| == |c| && |b| == |d|
    ensures AbsoluteError(a + b, c + d) == AbsoluteError(a, c) + AbsoluteError(b, d)
    ensures LargestError(a + b, c + d) == Larger(LargestError(a, c), LargestError(b, d))
  {
    if a == [] {
      assert a + b == b && c + d == d;
      ErrorBounds(b, d);
    } else {
      ErrorsOfConcat(a[1..], b, c[1..], d);
      assert (a + b)[1..] == a[1..] + b && (c + d)[1..] == c[1..] + d;
    }
  }

  lemma {:induction false} RangeOfConcat(a: seq<real>, b: seq<real>)
    requires a != [] && b != []
    ensures Lowest(a + b) == Smaller(Lowest(a), Lowest(b))
    ensures Highest(a + b) == Larger(Highest(a), Highest(b))
  {
    if |a| == 1 {
      assert (a + b)[1..] == b;
    } else {
      RangeOfConcat(a[1..], b);
      assert (a + b)[1..] == a[1..] + b;
    }
  }

  // ---- errors ----------------------------------------------------------------

  lemma AddError(n: real, e: real, largest: real, total: real, more: real, larger: real)
    requires n >= 0.0 && e >= 0.0 && 0.0 <= largest <= total <= Times(n, largest)
    requires more == n + 1.0 && larger == Larger(e, largest)
    ensures 0.0 <= larger <= e + total <= Times(more, larger)
  {
    Monotone(n, largest, larger);
    Distribute(larger, n, 1.0);
    Commute(larger, n);
    Commute(larger, more);
  }

  /** The total error lies between the largest one and the count times the largest. */
  lemma {:induction false} ErrorBounds(l: seq<real>, r: seq<real>)
    requires |l| == |r|
    ensures 0.0 <= LargestError(l, r) <= AbsoluteError(l, r) <= Times(|l| as real, LargestError(l, r))
  {
    if l != [] {
      ErrorBounds(l[1..], r[1..]);
      AddError(|l[1..]| as real, Abs(l[0] - r[0]), LargestError(l[1..], r[1..]), AbsoluteError(l[1..], r[1..]),
        |l| as real, LargestError(l, r));
    }
  }

  lemma {:induction false} NoErrorExactly(l: seq<real>, r: seq<real>)
    requires |l| == |r|
    ensures AbsoluteError(l, r) == 0.0 <==> l == r
  {
    if l != [] {
      NoErrorExactly(l[1..], r[1..]);
      ErrorBounds(l[1..], r[1..]);
      assert l == [l[0]] + l[1..] && r == [r[0]] + r[1..];
      assert AbsoluteError(l, r) == 0.0 ==> l[0] == r[0] && l[1..] == r[1..];
      assert l == r ==> l[1..] == r[1..];
    }
  }

  /** No element errs by more than the largest error, and some element errs by exactly that. */
  lemma {:induction false} LargestErrorIsReached(l: seq<real>, r: seq<real>)
    requires |l| == |r|
    ensures forall i :: 0 <= i < |l| ==> Abs(l[i] - r[i]) <= LargestError(l, r)
    ensures l != [] ==> exists i :: 0 <= i < |l| && Abs(l[i] - r[i]) == LargestError(l, r)
  {
    if |l| > 0 {
      LargestErrorIsReached(l[1..], r[1..]);
      forall i | 0 <= i < |l| ensures Abs(l[i] - r[i]) <= LargestError(l, r) {
        assert i > 0 ==> l[i] == l[1..][i - 1] && r[i] == r[1..][i - 1];
      }
      if LargestError(l, r) == Abs(l[0] - r[0]) {
      } else {
        assert |l| > 1;
        var i :| 0 <= i < |l[1..]| && Abs(l[1..][i] - r[1..][i]) == LargestError(l[1..], r[1..]);
        assert Abs(l[i + 1] - r[i + 1]) == LargestError(l, r);
      }
    }
  }

  lemma {:induction false} RangeBounds(xs: seq<real>, i: nat)
    requires i < |xs|
    ensures Lowest(xs) <= xs[i] <= Highest(xs)
  {
    if |xs| > 1 {
      RangeBounds(xs[1..], if i > 0 then i - 1 else 0);
    }
  }

  // ---- Cauchy-Schwarz ----------------------------------------------------------

  /** The sum of (t l - r) squared. */
  function Residual(l: seq<real>, r: seq<real>, t: real): real
    requires |l| == |r|
  {
    if l == [] then 0.0 else Squared(Times(t, l[0]) - r[0]) + Residual(l[1..], r[1..], t)
  }

  /** t (t a - 2 d) + b. */
  function Quadratic(t: real, a: real, d: real, b: real): real {
    Times(t, Times(t, a) - 2.0 * d) + b
  }

  lemma ExpandOne(a: real, b: real, t: real)
    ensures Squared(Times(t, a) - b) == Quadratic(t, Squared(a), Times(a, b), Squared(b))
  {
    var y := Times(t, a);
    Distribute(y - b, y, b);
    Commute(y - b, y);
    Commute(y - b, b);
    Distribute(y, y, b);
    Distribute(b, y, b);
    Commute(y, b);
    Associate(t, a, y);
    Commute(a, y);
    Associate(t, a, a);
    Associate(t, a, b);
    Distribute(t, Times(t, Squared(a)), 2.0 * Times(a, b));
    Distribute(t, Times(a, b), Times(a, b));
  }

  lemma ExpandMore(t: real, a: real, d: real, b: real, a': real, d': real, b': real)
    ensures Quadratic(t, a + a', d + d', b + b') == Quadratic(t, a, d, b) + Quadratic(t, a', d', b')
  {
    Distribute(t, a, a');
    Distribute(t, Times(t, a) - 2.0 * d, Times(t, a') - 2.0 * d');
  }

  lemma {:induction false} ResidualExpands(l: seq<real>, r: seq<real>, t: real)
    requires |l| == |r|
    ensures Residual(l, r, t) == Quadratic(t, Dot(l, l), Dot(l, r), Dot(r, r))
  {
    if l == [] {
      Distribute(t, 0.0, 0.0);
    } else {
      ResidualExpands(l[1..], r[1..], t);
      ExpandOne(l[0], r[0], t);
      ExpandMore(t, Squared(l[0]), Times(l[0], r[0]), Squared(r[0]),
        Dot(l[1..], l[1..]), Dot(l[1..], r[1..]), Dot(r[1..], r[1..]));
    }
  }

  lemma {:induction false} ResidualIsNotNegative(l: seq<real>, r: seq<real>, t: real)
    requires |l| == |r|
    ensures Residual(l, r, t) >= 0.0
  {
    if l != [] {
      ResidualIsNotNegative(l[1..], r[1..], t);
      Square(Times(t, l[0]) - r[0]);
    }
  }

  lemma {:induction false} NoResidual(l: seq<real>, r: seq<real>, t: real)
    requires |l| == |r|
    ensures Residual(l, r, t) == 0.0 <==> forall i :: 0 <= i < |l| ==> Times(t, l[i]) == r[i]
  {
    if l != [] {
      NoResidual(l[1..], r[1..], t);
      ResidualIsNotNegative(l[1..], r[1..], t);
      Square(Times(t, l[0]) - r[0]);
      assert forall i :: 0 < i < |l| ==> l[i] == l[1..][i - 1] && r[i] == r[1..][i - 1];
      assert forall i :: 0 <= i < |l[1..]| ==> l[1..][i] == l[i + 1] && r[1..][i] == r[i + 1];
    }
  }

  lemma {:induction false} SquaresAddUp(xs: seq<real>)
    ensures Dot(xs, xs) >= 0.0
  {
    if xs != [] {
      SquaresAddUp(xs[1..]);
      Square(xs[0]);
    }
  }

  lemma {:induction false} NoSquaresExactly(xs: seq<real>)
    ensures Dot(xs, xs) == 0.0 <==> forall i :: 0 <= i < |xs| ==> xs[i] == 0.0
  {
    if xs != [] {
      NoSquaresExactly(xs[1..]);
      SquaresAddUp(xs[1..]);
      Square(xs[0]);
      assert forall i :: 0 < i < |xs| ==> xs[i] == xs[1..][i - 1];
      assert forall i :: 0 <= i < |xs[1..]| ==> xs[1..][i] == xs[i + 1];
    }
  }

  lemma {:induction false} ZeroProducts(l: seq<real>, r: seq<real>)
    requires |l| == |r| && forall i :: 0 <= i < |l| ==> l[i] == 0.0
    ensures Dot(l, r) == 0.0
  {
    if l != [] {
      assert forall i :: 0 <= i < |l[1..]| ==> l[1..][i] == l[i + 1];
      ZeroProducts(l[1..], r[1..]);
      assert Times(0.0, r[0]) == 0.0;
    }
  }

  lemma {:induction false} DotCommutes(l: seq<real>, r: seq<real>)
    requires |l| == |r|
    ensures Dot(l, r) == Dot(r, l)
  {
    if l != [] {
      DotCommutes(l[1..], r[1..]);
      Commute(l[0], r[0]);
    }
  }

  /** At its minimum, t = d / a, the quadratic is still not negative, so d squared is at most a b. */
  lemma Discriminant(a: real, d: real, b: real, t: real)
    requires a > 0.0 && Times(t, a) == d && Quadratic(t, a, d, b) >= 0.0
    ensures Squared(d) <= Times(a, b)
  {
    assert Times(t, d - 2.0 * d) == -Times(t, d);
    Monotone(a, Times(t, d), b);
    Associate(a, t, d);
    Commute(a, t);
  }

  lemma Quotient(d: real, a: real) returns (t: real)
    requires a > 0.0
    ensures Times(t, a) == d
  {
    t := d / a;
  }

  /** The square of the dot product never exceeds the product of the two sums of squares. */
  lemma {:induction false} CauchySchwarz(l: seq<real>, r: seq<real>)
    requires |l| == |r|
    ensures Squared(Dot(l, r)) <= Times(Dot(l, l), Dot(r, r))
  {
    SquaresAddUp(l);
    NoSquaresExactly(l);
    if Dot(l, l) == 0.0 {
      ZeroProducts(l, r);
      assert Times(0.0, Dot(r, r)) == 0.0;
    } else {
      var t := Quotient(Dot(l, r), Dot(l, l));
      ResidualExpands(l, r, t);
      ResidualIsNotNegative(l, r, t);
      Discriminant(Dot(l, l), Dot(l, r), Dot(r, r), t);
    }
  }

  /** Twice the dot product lies within the sum of the squares, and reaches it exactly on equal sequences. */
  lemma {:induction false} TwiceDot(l: seq<real>, r: seq<real>)
    requires |l| == |r|
    ensures -(Dot(l, l) + Dot(r, r)) <= 2.0 * Dot(l, r) <= Dot(l, l) + Dot(r, r)
    ensures 2.0 * Dot(l, r) == Dot(l, l) + Dot(r, r) <==> l == r
  {
    ResidualExpands(l, r, 1.0);
    ResidualExpands(l, r, -1.0);
    ResidualIsNotNegative(l, r, 1.0);
    ResidualIsNotNegative(l, r, -1.0);
    NoResidual(l, r, 1.0);
    assert forall i :: 0 <= i < |l| ==> Times(1.0, l[i]) == l[i];
    AtOne(Dot(l, l), Dot(l, r), Dot(r, r));
  }

  lemma AtOne(a: real, d: real, b: real)
    ensures Quadratic(1.0, a, d, b) == a - 2.0 * d + b
    ensures Quadratic(-1.0, a, d, b) == a + 2.0 * d + b
  {
  }
}
