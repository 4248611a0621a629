/** What the metrics of two arrays can be (scripts/compare_attention_quality.py), in exact reals. */
module AttentionLaws {
  import opened RealSums
  import opened SsimWindows
  import opened AttentionMetrics

  lemma RootOfSquare(root: real -> real, x: real)
    requires IsRoot(root) && x > 0.0
    ensures root(Times(x, x)) == x
  {
    PositiveTimes(x, x);
    SquareOrder(root(Times(x, x)), x);
    SquareOrder(x, root(Times(x, x)));
  }

  /** The cosine lies in [-1, 1]: Cauchy-Schwarz. */
  lemma {:induction false} CosineBounds(l: seq<real>, r: seq<real>, root: real -> real)
    requires |l| == |r| && IsRoot(root)
    ensures Dot(l, l) >= 0.0 && Dot(r, r) >= 0.0
    ensures -1.0 <= Cosine(Dot(l, r), Dot(l, l), Dot(r, r), root) <= 1.0
  {
    SquaresAddUp(l);
    SquaresAddUp(r);
    if Dot(l, l) > 0.0 && Dot(r, r) > 0.0 {
      PositiveTimes(Dot(l, l), Dot(r, r));
      var product := root(Times(Dot(l, l), Dot(r, r)));
      CauchySchwarz(l, r);
      Magnitude(Dot(l, r));
      SquareOrder(Abs(Dot(l, r)), product);
      QuotientBounds(Dot(l, r), product);
    }
  }

  /** One array is a positive multiple of the other. */
  ghost predicate SameDirection(l: seq<real>, r: seq<real>)
    requires |l| == |r|
  {
    exists t :: t > 0.0 && Scales(l, r, t)
  }

  ghost predicate Scales(l: seq<real>, r: seq<real>, t: real)
    requires |l| == |r|
  {
    forall i :: 0 <= i < |l| ==> Times(t, l[i]) == r[i]
  }

  /** Two sums of squares a and b and a dot product d meet the bound exactly when b is d squared over a. */
  lemma NoRemainder(a: real, d: real, b: real, t: real)
    requires a > 0.0 && Times(t, a) == d
    ensures Quadratic(t, a, d, b) == 0.0 <==> Squared(d) == Times(a, b)
  {
    assert Times(t, d - 2.0 * d) == -Times(t, d);
    Associate(a, t, d);
    Commute(a, t);
    assert Squared(d) == Times(a, Times(t, d));
    if Times(t, d) < b {
      Monotone(a, Times(t, d), b);
    } else if b < Times(t, d) {
      Monotone(a, b, Times(t, d));
    }
  }

  lemma SignOfQuotient(t: real, a: real, d: real)
    requires a > 0.0 && Times(t, a) == d
    ensures t > 0.0 <==> d > 0.0
  {
    Commute(t, a);
    assert Times(a, 0.0) == 0.0;
    if t > 0.0 {
      Monotone(a, 0.0, t);
    } else {
      Monotone(a, t, 0.0);
    }
  }

  /** The multiple, when there is one, is the dot product over the sum of squares. */
  lemma {:induction false} DotOfScaled(l: seq<real>, r: seq<real>, t: real)
    requires |l| == |r| && Scales(l, r, t)
    ensures Dot(l, r) == Times(t, Dot(l, l))
  {
    if l == [] {
      assert Times(t, 0.0) == 0.0;
    } else {
      assert forall i :: 0 <= i < |l[1..]| ==> l[1..][i] == l[i + 1] && r[1..][i] == r[i + 1];
      DotOfScaled(l[1..], r[1..], t);
      Associate(l[0], t, l[0]);
      Commute(l[0], t);
      Commute(l[0], r[0]);
      Associate(t, l[0], l[0]);
      Commute(Times(t, l[0]), l[0]);
      Distribute(t, Squared(l[0]), Dot(l[1..], l[1..]));
    }
  }

  /** Reaching the bound is the same as having the same direction. */
  lemma {:induction false} DirectionByBound(l: seq<real>, r: seq<real>)
    requires |l| == |r| && Dot(l, l) > 0.0
    ensures SameDirection(l, r) <==> Dot(l, r) > 0.0 && Squared(Dot(l, r)) == Times(Dot(l, l), Dot(r, r))
  {
    var t := Quotient(Dot(l, r), Dot(l, l));
    ResidualExpands(l, r, t);
    NoResidual(l, r, t);
    NoRemainder(Dot(l, l), Dot(l, r), Dot(r, r), t);
    SignOfQuotient(t, Dot(l, l), Dot(l, r));
    if SameDirection(l, r) {
      var u :| u > 0.0 && Scales(l, r, u);
      DotOfScaled(l, r, u);
      SameQuotient(t, u, Dot(l, l));
      assert Scales(l, r, t);
    }
    if Dot(l, r) > 0.0 && Squared(Dot(l, r)) == Times(Dot(l, l), Dot(r, r)) {
      assert Scales(l, r, t);
    }
  }

  lemma SameQuotient(t: real, u: real, a: real)
    requires a > 0.0 && Times(t, a) == Times(u, a)
    ensures t == u
  {
    Commute(t, a);
    Commute(u, a);
    if t < u {
      Monotone(a, t, u);
    } else if u < t {
      Monotone(a, u, t);
    }
  }

  lemma BoundByRoot(d: real, p: real, root: real -> real)
    requires IsRoot(root) && p > 0.0
    ensures d == root(p) <==> d > 0.0 && Squared(d) == p
  {
    if d > 0.0 && Squared(d) == p {
      SquareOrder(d, root(p));
      SquareOrder(root(p), d);
    }
  }

  /** Unless an array is all zeros, the cosine is 1 exactly when one array is a positive multiple of the other. */
  lemma {:induction false} CosineIsOneExactly(l: seq<real>, r: seq<real>, root: real -> real)
    requires |l| == |r| && IsRoot(root) && Dot(l, l) > 0.0 && Dot(r, r) > 0.0
    ensures Cosine(Dot(l, r), Dot(l, l), Dot(r, r), root) == 1.0 <==> SameDirection(l, r)
  {
    PositiveTimes(Dot(l, l), Dot(r, r));
    var p := Times(Dot(l, l), Dot(r, r));
    CauchySchwarz(l, r);
    Magnitude(Dot(l, r));
    SquareOrder(Abs(Dot(l, r)), root(p));
    QuotientBounds(Dot(l, r), root(p));
    BoundByRoot(Dot(l, r), p, root);
    DirectionByBound(l, r);
  }

  lemma MeanBounds(total: real, n: real, largest: real)
    requires n > 0.0 && 0.0 <= total <= Times(n, largest)
    ensures 0.0 <= total / n <= largest
    ensures total / n == 0.0 <==> total == 0.0
  {
    var mean := total / n;
    assert Times(mean, n) == total;
    Commute(mean, n);
    assert Times(n, 0.0) == 0.0;
    if mean < 0.0 {
      Monotone(n, mean, 0.0);
    } else if mean > 0.0 {
      Monotone(n, 0.0, mean);
      if mean > largest {
        Monotone(n, largest, mean);
      }
    }
  }

  lemma {:induction false} MeanError(l: seq<real>, r: seq<real>)
    requires |l| == |r| && l != []
    ensures 0.0 <= AbsoluteError(l, r) / |l| as real <= LargestError(l, r)
    ensures AbsoluteError(l, r) / |l| as real == 0.0 <==> l == r
    ensures LargestError(l, r) == 0.0 <==> l == r
  {
    ErrorBounds(l, r);
    NoErrorExactly(l, r);
    assert Times(|l| as real, 0.0) == 0.0;
    MeanBounds(AbsoluteError(l, r), |l| as real, LargestError(l, r));
  }

  /** The largest error never exceeds the span of the two reported ranges. */
  lemma {:induction false} ErrorWithinRanges(l: seq<real>, r: seq<real>)
    requires |l| == |r| && l != []
    ensures LargestError(l, r) <= Larger(Highest(l) - Lowest(r), Highest(r) - Lowest(l))
  {
    LargestErrorIsReached(l, r);
    var i :| 0 <= i < |l| && Abs(l[i] - r[i]) == LargestError(l, r);
    RangeBounds(l, i);
    RangeBounds(r, i);
  }

  // ---- SSIM -------------------------------------------------------------------------

  lemma FrameValuesBounds(shape: seq<nat>, l: seq<real>, r: seq<real>)
    requires ShapeError(shape).None? && |l| == |r| == Product(shape)
    ensures var v := FrameValues(shape, l, r);
            -(|v| as real) <= Sum(v) <= |v| as real && (Sum(v) == |v| as real <==> l == r)
  {
    FrameOfShape(shape, l);
    FrameOfShape(shape, r);
    var rows, columns, c := shape[0] / WINDOW, shape[1] / WINDOW, shape[2];
    var v := FrameValues(shape, l, r);
    ValuesOfEqual(l, r, rows, columns, c);
    assert forall n :: 0 <= n < |v| ==> v[n] == ValueAt(l, r, rows, columns, c, n);
    assert forall n :: 0 <= n < rows * columns * c ==> ValueAt(l, r, rows, columns, c, n) == v[n];
    SumOfBounded(v);
  }

  lemma {:induction false} AllValuesBounds(shape: seq<nat>, ls: seq<seq<real>>, rs: seq<seq<real>>)
    requires ShapeError(shape).None? && Comparable(ls, rs, Product(shape))
    ensures var v := AllValues(shape, ls, rs);
            -(|v| as real) <= Sum(v) <= |v| as real && (Sum(v) == |v| as real <==> ls == rs)
  {
    if ls != [] {
      var n := |ls| - 1;
      AllValuesBounds(shape, ls[..n], rs[..n]);
      FrameOfShape(shape, ls[n]);
      FrameOfShape(shape, rs[n]);
      FrameValuesBounds(shape, ls[n], rs[n]);
      var front, last := AllValues(shape, ls[..n], rs[..n]), FrameValues(shape, ls[n], rs[n]);
      SumOfConcat(front, last);
      assert |front + last| as real == |front| as real + |last| as real;
      assert ls == ls[..n] + [ls[n]] && rs == rs[..n] + [rs[n]];
      assert ls == rs <==> ls[..n] == rs[..n] && ls[n] == rs[n];
    }
  }

  lemma AverageBounds(sum: real, n: nat)
    requires n > 0 && -(n as real) <= sum <= n as real
    ensures -1.0 <= sum / n as real <= 1.0
    ensures sum / n as real == 1.0 <==> sum == n as real
  {
    QuotientBounds(sum, n as real);
  }

  lemma {:induction false} FlatIsInjective(ls: seq<seq<real>>, rs: seq<seq<real>>, size: nat)
    requires Comparable(ls, rs, size)
    ensures Flat(ls) == Flat(rs) <==> ls == rs
  {
    FlatSize(ls, size);
    FlatSize(rs, size);
    if ls == [] {
      assert rs == [];
    } else {
      var n := |ls| - 1;
      FlatIsInjective(ls[..n], rs[..n], size);
      FlatSize(ls[..n], size);
      FlatSize(rs[..n], size);
      var k := |Flat(ls[..n])|;
      assert Flat(ls)[..k] == Flat(ls[..n]) && Flat(rs)[..k] == Flat(rs[..n]);
      assert Flat(ls)[k..] == ls[n] && Flat(rs)[k..] == rs[n];
      assert ls == ls[..n] + [ls[n]] && rs == rs[..n] + [rs[n]];
    }
  }

  // ---- every report -------------------------------------------------------------------

  /**
    Every report: the cosine and the mean SSIM lie in [-1, 1], the mean error in [0, maximum error], the maximum
    error within the span of the ranges; and each of error 0 and SSIM 1 holds exactly for equal arrays.
   */
  lemma {:induction false} MetricsAreSound(m: Metrics, shape: seq<nat>, ls: seq<seq<real>>, rs: seq<seq<real>>,
                                           image: bool, root: real -> real)
    requires Comparable(ls, rs, Product(shape)) && Flat(ls) != [] && |Flat(ls)| == |Flat(rs)|
    requires IsRoot(root) && (image ==> ShapeError(shape).None?)
    requires Describes(m, shape, ls, rs, image, root)
    ensures -1.0 <= m.cosine <= 1.0
    ensures 0.0 <= m.meanError <= m.maxError
    ensures m.maxError <= Larger(m.baseline.1 - m.candidate.0, m.candidate.1 - m.baseline.0)
    ensures m.meanError == 0.0 <==> ls == rs
    ensures m.maxError == 0.0 <==> ls == rs
    ensures image <==> m.ssim.Some?
    ensures image ==> -1.0 <= m.ssim.value.0 <= 1.0 && m.ssim.value.1 * 64 == m.elements
    ensures image ==> (m.ssim.value.0 == 1.0 <==> ls == rs)
  {
    var l, r := Flat(ls), Flat(rs);
    CosineBounds(l, r, root);
    MeanError(l, r);
    ErrorWithinRanges(l, r);
    FlatIsInjective(ls, rs, Product(shape));
    if image {
      AllValuesBounds(shape, ls, rs);
      SsimIsCounted(shape, ls, rs);
      AverageBounds(Sum(AllValues(shape, ls, rs)), |AllValues(shape, ls, rs)|);
    }
  }

  /** Equal arrays have cosine 1, all zeros or not. */
  lemma {:induction false} EqualArraysHaveCosineOne(m: Metrics, shape: seq<nat>, frames: seq<seq<real>>, image: bool,
                                                    root: real -> real)
    requires Comparable(frames, frames, Product(shape)) && Flat(frames) != []
    requires IsRoot(root) && (image ==> ShapeError(shape).None?)
    requires Describes(m, shape, frames, frames, image, root)
    ensures m.cosine == 1.0
  {
    var l := Flat(frames);
    SquaresAddUp(l);
    if Dot(l, l) > 0.0 {
      RootOfSquare(root, Dot(l, l));
      var d := Dot(l, l);
      QuotientBounds(d, root(Times(d, d)));
    }
  }
}
