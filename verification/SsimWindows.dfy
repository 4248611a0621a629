/**
  The 8x8 SSIM windows of one image frame (scripts/compare_attention_quality.py, `_ssim_windows`), in exact
  reals. A frame of height h, width w and c channels is its elements in row-major order.
 */
module SsimWindows {
  import opened RealSums

  const WINDOW: nat := 8
  const C1: real := 0.0001
  const C2: real := 0.0009

  // ---- one window ------------------------------------------------------------

  function Mean(xs: seq<real>): real
    requires |xs| == 64
  {
    Sum(xs) / 64.0
  }

  function Centered(xs: seq<real>): (r: seq<real>)
    requires |xs| == 64
    ensures |r| == 64
  {
    var mean := Mean(xs);
    seq(64, i requires 0 <= i < 64 => xs[i] - mean)
  }

  /** The mean of the element-wise product of the centered windows. */
  function Covariance(l: seq<real>, r: seq<real>): real
    requires |l| == |r| == 64
  {
    Dot(Centered(l), Centered(r)) / 64.0
  }

  function Luminance(l: real, r: real): real {
    2.0 * Times(l, r) + C1
  }

  function LuminanceScale(l: real, r: real): (s: real)
    ensures s > 0.0
  {
    Square(l);
    Square(r);
    Squared(l) + Squared(r) + C1
  }

  function Structure(l: seq<real>, r: seq<real>): real
    requires |l| == |r| == 64
  {
    2.0 * Covariance(l, r) + C2
  }

  function StructureScale(l: seq<real>, r: seq<real>): (s: real)
    requires |l| == |r| == 64
    ensures s > 0.0
  {
    SquaresAddUp(Centered(l));
    SquaresAddUp(Centered(r));
    Covariance(l, l) + Covariance(r, r) + C2
  }

  function WindowValue(l: seq<real>, r: seq<real>): real
    requires |l| == |r| == 64
  {
    ProductBounds(0.0, LuminanceScale(Mean(l), Mean(r)), 0.0, StructureScale(l, r));
    Times(Luminance(Mean(l), Mean(r)), Structure(l, r))
      / Times(LuminanceScale(Mean(l), Mean(r)), StructureScale(l, r))
  }

  lemma ProductBounds(a: real, b: real, c: real, d: real)
    requires b > 0.0 && d > 0.0 && -b <= a <= b && -d <= c <= d
    ensures Times(b, d) > 0.0
    ensures -Times(b, d) <= Times(a, c) <= Times(b, d)
  {
    Monotone(b, 0.0, d);
    assert Times(b, 0.0) == 0.0;
    Monotone(b, c, d);
    Monotone(b, -d, c);
    Negate(b, d);
    if c >= 0.0 {
      Monotone(c, a, b);
      Monotone(c, -b, a);
      Negate(c, b);
    } else {
      Monotone(-c, a, b);
      Monotone(-c, -b, a);
      Negate(c, a);
      Negate(c, b);
    }
    Commute(a, c);
    Commute(b, c);
  }

  /** With a strictly above -b, the product reaches its bound exactly when both factors do. */
  lemma ProductReaches(a: real, b: real, c: real, d: real)
    requires b > 0.0 && d > 0.0 && -b < a <= b && -d <= c <= d
    ensures Times(a, c) == Times(b, d) <==> a == b && c == d
  {
    if a == b {
      Monotone(b, c, d);
    } else {
      assert Times(0.0, d) == 0.0;
      if a >= 0.0 {
        Monotone(a, c, d);
      } else {
        Monotone(-a, -d, c);
        Negate(a, d);
        Negate(a, c);
        Negate(d, a);
        Commute(a, d);
      }
      Monotone(d, a, b);
      Monotone(d, -a, b);
      Commute(d, a);
      Commute(d, b);
      Negate(d, a);
    }
  }

  lemma TwiceProduct(l: real, r: real)
    ensures -(Squared(l) + Squared(r)) <= 2.0 * Times(l, r) <= Squared(l) + Squared(r)
    ensures 2.0 * Times(l, r) == Squared(l) + Squared(r) <==> l == r
  {
    TwiceDot([l], [r]);
    assert Dot([l], [r]) == Times(l, r) && Dot([l], [l]) == Squared(l) && Dot([r], [r]) == Squared(r);
    assert l == r <==> [l] == [r] by {
      assert [l][0] == l && [r][0] == r;
    }
  }

  lemma FactorBounds(l: seq<real>, r: seq<real>)
    requires |l| == |r| == 64
    ensures -LuminanceScale(Mean(l), Mean(r)) < Luminance(Mean(l), Mean(r)) <= LuminanceScale(Mean(l), Mean(r))
    ensures -StructureScale(l, r) <= Structure(l, r) <= StructureScale(l, r)
    ensures Luminance(Mean(l), Mean(r)) == LuminanceScale(Mean(l), Mean(r)) <==> Mean(l) == Mean(r)
    ensures Structure(l, r) == StructureScale(l, r) <==> Centered(l) == Centered(r)
  {
    TwiceProduct(Mean(l), Mean(r));
    TwiceDot(Centered(l), Centered(r));
  }

  lemma SameMeanSameCentered(l: seq<real>, r: seq<real>)
    requires |l| == |r| == 64
    ensures Mean(l) == Mean(r) && Centered(l) == Centered(r) <==> l == r
  {
    if Mean(l) == Mean(r) && Centered(l) == Centered(r) {
      forall i | 0 <= i < 64 ensures l[i] == r[i] {
        assert Centered(l)[i] == l[i] - Mean(l) && Centered(r)[i] == r[i] - Mean(r);
      }
    }
  }

  /** A window's value lies in [-1, 1], and is 1 exactly on equal windows. */
  lemma WindowValueBounds(l: seq<real>, r: seq<real>)
    requires |l| == |r| == 64
    ensures -1.0 <= WindowValue(l, r) <= 1.0
    ensures WindowValue(l, r) == 1.0 <==> l == r
  {
    var a, b := Luminance(Mean(l), Mean(r)), LuminanceScale(Mean(l), Mean(r));
    var c, d := Structure(l, r), StructureScale(l, r);
    FactorBounds(l, r);
    ProductBounds(a, b, c, d);
    ProductReaches(a, b, c, d);
    QuotientBounds(Times(a, c), Times(b, d));
    SameMeanSameCentered(l, r);
  }

  // ---- the windows of a frame --------------------------------------------------

  /** Digit k below base c after the digits q. */
  function Pack(q: nat, k: nat, c: nat): nat {
    q * c + k
  }

  lemma {:induction false} StepUp(q: nat, r: nat, c: nat)
    ensures q < r ==> q * c + c <= r * c
    ensures q <= r ==> q * c <= r * c
    decreases r
  {
    if q < r {
      StepUp(q, r - 1, c);
      assert r * c == (r - 1) * c + c;
    }
  }

  lemma Inside(y: nat, x: nat, h: nat, w: nat)
    requires y < h && x < w
    ensures Pack(y, x, w) < h * w
  {
    StepUp(y, h, w);
  }

  lemma Unpack(q: nat, k: nat, c: nat)
    requires k < c
    ensures Pack(q, k, c) / c == q && Pack(q, k, c) % c == k
  {
    var n := Pack(q, k, c);
    assert n == n / c * c + n % c;
    StepUp(q, n / c, c);
    StepUp(n / c, q, c);
  }

  lemma Divides(n: nat, h: nat, w: nat)
    requires n < h * w
    ensures w > 0 && n / w < h && n % w < w && n == Pack(n / w, n % w, w)
  {
    assert w > 0;
    StepUp(h, n / w, w);
  }

  /** The row-major position of element (y, x, k) in a frame of width w with c channels. */
  function Position(w: nat, c: nat, y: nat, x: nat, k: nat): nat {
    Pack(Pack(y, x, w), k, c)
  }

  lemma PositionIsInside(h: nat, w: nat, c: nat, y: nat, x: nat, k: nat)
    requires y < h && x < w && k < c
    ensures Position(w, c, y, x, k) < h * w * c
  {
    Inside(y, x, h, w);
    Inside(Pack(y, x, w), k, h * w, c);
  }

  ghost predicate IsFrame(f: seq<real>, rows: nat, columns: nat, c: nat) {
    |f| == (rows * WINDOW) * (columns * WINDOW) * c
  }

  /** Channel k of the window in row i and column j of the grid, in row-major order. */
  function Window(f: seq<real>, ghost rows: nat, columns: nat, c: nat, i: nat, j: nat, k: nat): (r: seq<real>)
    requires IsFrame(f, rows, columns, c) && i < rows && j < columns && k < c
    ensures |r| == 64
  {
    forall n: nat | n < 64 ensures Position(columns * WINDOW, c, i * WINDOW + n / 8, j * WINDOW + n % 8, k) < |f| {
      PositionIsInside(rows * WINDOW, columns * WINDOW, c, i * WINDOW + n / 8, j * WINDOW + n % 8, k);
    }
    seq(64, n requires 0 <= n < 64 => f[Position(columns * WINDOW, c, i * WINDOW + n / 8, j * WINDOW + n % 8, k)])
  }

  /** Where entry n of the grid of values lies: its row, its column and its channel. */
  function GridRow(columns: nat, c: nat, n: nat): nat
    requires columns > 0 && c > 0
  {
    n / c / columns
  }

  function GridColumn(columns: nat, c: nat, n: nat): nat
    requires columns > 0 && c > 0
  {
    n / c % columns
  }

  lemma GridIsInside(rows: nat, columns: nat, c: nat, n: nat)
    requires n < rows * columns * c
    ensures columns > 0 && c > 0
    ensures GridRow(columns, c, n) < rows && GridColumn(columns, c, n) < columns && n % c < c
  {
    Divides(n, rows * columns, c);
    Divides(n / c, rows, columns);
  }

  function ValueAt(l: seq<real>, r: seq<real>, ghost rows: nat, columns: nat, c: nat, n: nat): real
    requires IsFrame(l, rows, columns, c) && IsFrame(r, rows, columns, c) && n < rows * columns * c
  {
    GridIsInside(rows, columns, c, n);
    var i, j, k := GridRow(columns, c, n), GridColumn(columns, c, n), n % c;
    WindowValue(Window(l, rows, columns, c, i, j, k), Window(r, rows, columns, c, i, j, k))
  }

  /** The array `values` of one frame. */
  function Values(l: seq<real>, r: seq<real>, rows: nat, columns: nat, c: nat): (v: seq<real>)
    requires IsFrame(l, rows, columns, c) && IsFrame(r, rows, columns, c)
    ensures |v| == rows * columns * c
  {
    seq(rows * columns * c, n requires 0 <= n < rows * columns * c => ValueAt(l, r, rows, columns, c, n))
  }

  /** The value whose window holds position p of the frame, and p's place in that window. */
  function HoldingValue(columns: nat, c: nat, p: nat): nat
    requires columns > 0 && c > 0
  {
    var y, x := p / c / (columns * WINDOW), p / c % (columns * WINDOW);
    Pack(Pack(y / WINDOW, x / WINDOW, columns), p % c, c)
  }

  function PlaceInWindow(columns: nat, c: nat, p: nat): nat
    requires columns > 0 && c > 0
  {
    var y, x := p / c / (columns * WINDOW), p / c % (columns * WINDOW);
    Pack(y % WINDOW, x % WINDOW, 8)
  }

  lemma HoldingValueIsInside(rows: nat, columns: nat, c: nat, p: nat)
    requires p < (rows * WINDOW) * (columns * WINDOW) * c
    ensures columns > 0 && c > 0
    ensures HoldingValue(columns, c, p) < rows * columns * c
    ensures PlaceInWindow(columns, c, p) < 64
    ensures var y, x := p / c / (columns * WINDOW), p / c % (columns * WINDOW);
            var n := HoldingValue(columns, c, p);
            n % c == p % c && GridRow(columns, c, n) == y / WINDOW && GridColumn(columns, c, n) == x / WINDOW
  {
    Divides(p, (rows * WINDOW) * (columns * WINDOW), c);
    Divides(p / c, rows * WINDOW, columns * WINDOW);
    var y, x := p / c / (columns * WINDOW), p / c % (columns * WINDOW);
    Inside(y / WINDOW, x / WINDOW, rows, columns);
    Inside(Pack(y / WINDOW, x / WINDOW, columns), p % c, rows * columns, c);
    Unpack(Pack(y / WINDOW, x / WINDOW, columns), p % c, c);
    Unpack(y / WINDOW, x / WINDOW, columns);
  }

  lemma PlaceUnpacks(columns: nat, c: nat, p: nat, y: nat, x: nat)
    requires columns > 0 && c > 0
    requires y == p / c / (columns * WINDOW) && x == p / c % (columns * WINDOW)
    ensures var e := PlaceInWindow(columns, c, p);
            Position(columns * WINDOW, c, y / WINDOW * WINDOW + e / 8, x / WINDOW * WINDOW + e % 8, p % c) == p
  {
    var e := PlaceInWindow(columns, c, p);
    assert e / 8 == y % WINDOW && e % 8 == x % WINDOW;
    assert y / WINDOW * WINDOW + y % WINDOW == y && x / WINDOW * WINDOW + x % WINDOW == x;
    var w := columns * WINDOW;
    assert y * w + x == p / c;
    assert p / c * c + p % c == p;
  }

  lemma WindowAt(f: seq<real>, rows: nat, columns: nat, c: nat, i: nat, j: nat, k: nat, e: nat, p: nat)
    requires IsFrame(f, rows, columns, c) && i < rows && j < columns && k < c && e < 64 && p < |f|
    requires p == Position(columns * WINDOW, c, i * WINDOW + e / 8, j * WINDOW + e % 8, k)
    ensures Window(f, rows, columns, c, i, j, k)[e] == f[p]
  {
  }

  /** Every element of a frame lies in one of the windows that are compared. */
  lemma WindowsCover(f: seq<real>, rows: nat, columns: nat, c: nat, p: nat)
    requires IsFrame(f, rows, columns, c) && p < |f|
    ensures columns > 0 && c > 0
    ensures var n, e := HoldingValue(columns, c, p), PlaceInWindow(columns, c, p);
            && n < rows * columns * c && e < 64
            && GridRow(columns, c, n) < rows && GridColumn(columns, c, n) < columns && n % c < c
            && Window(f, rows, columns, c, GridRow(columns, c, n), GridColumn(columns, c, n), n % c)[e] == f[p]
  {
    HoldingValueIsInside(rows, columns, c, p);
    var n, e := HoldingValue(columns, c, p), PlaceInWindow(columns, c, p);
    GridIsInside(rows, columns, c, n);
    PlaceUnpacks(columns, c, p, p / c / (columns * WINDOW), p / c % (columns * WINDOW));
    WindowAt(f, rows, columns, c, GridRow(columns, c, n), GridColumn(columns, c, n), n % c, e, p);
  }

  // ---- the sum of a frame --------------------------------------------------------

  lemma {:induction false} SumOfBounded(xs: seq<real>)
    requires forall i :: 0 <= i < |xs| ==> -1.0 <= xs[i] <= 1.0
    ensures -(|xs| as real) <= Sum(xs) <= |xs| as real
    ensures Sum(xs) == |xs| as real <==> forall i :: 0 <= i < |xs| ==> xs[i] == 1.0
  {
    if xs != [] {
      SumOfBounded(xs[1..]);
      assert |xs| as real == |xs[1..]| as real + 1.0;
      if Sum(xs) == |xs| as real {
        forall i | 0 <= i < |xs| ensures xs[i] == 1.0 {
          assert i > 0 ==> xs[i] == xs[1..][i - 1];
        }
      }
    }
  }

  lemma ValueBounds(l: seq<real>, r: seq<real>, rows: nat, columns: nat, c: nat, n: nat)
    requires IsFrame(l, rows, columns, c) && IsFrame(r, rows, columns, c) && n < rows * columns * c
    ensures -1.0 <= ValueAt(l, r, rows, columns, c, n) <= 1.0
    ensures l == r ==> ValueAt(l, r, rows, columns, c, n) == 1.0
  {
    GridIsInside(rows, columns, c, n);
    var i, j, k := GridRow(columns, c, n), GridColumn(columns, c, n), n % c;
    WindowValueBounds(Window(l, rows, columns, c, i, j, k), Window(r, rows, columns, c, i, j, k));
  }

  /** Where the value of its window is 1, an element is the same in both frames. */
  lemma ValueOneMeansEqual(l: seq<real>, r: seq<real>, rows: nat, columns: nat, c: nat, p: nat)
    requires IsFrame(l, rows, columns, c) && IsFrame(r, rows, columns, c) && p < |l|
    requires forall n :: 0 <= n < rows * columns * c ==> ValueAt(l, r, rows, columns, c, n) == 1.0
    ensures l[p] == r[p]
  {
    WindowsCover(l, rows, columns, c, p);
    WindowsCover(r, rows, columns, c, p);
    var n := HoldingValue(columns, c, p);
    var i, j, k := GridRow(columns, c, n), GridColumn(columns, c, n), n % c;
    assert ValueAt(l, r, rows, columns, c, n) == 1.0;
    WindowValueBounds(Window(l, rows, columns, c, i, j, k), Window(r, rows, columns, c, i, j, k));
  }

  /** The values of a frame lie in [-1, 1], and are all 1 exactly on equal frames. */
  lemma ValuesOfEqual(l: seq<real>, r: seq<real>, rows: nat, columns: nat, c: nat)
    requires IsFrame(l, rows, columns, c) && IsFrame(r, rows, columns, c)
    ensures forall n :: 0 <= n < rows * columns * c ==> -1.0 <= ValueAt(l, r, rows, columns, c, n) <= 1.0
    ensures l == r <==> forall n :: 0 <= n < rows * columns * c ==> ValueAt(l, r, rows, columns, c, n) == 1.0
  {
    forall n | 0 <= n < rows * columns * c
      ensures -1.0 <= ValueAt(l, r, rows, columns, c, n) <= 1.0
      ensures l == r ==> ValueAt(l, r, rows, columns, c, n) == 1.0
    {
      ValueBounds(l, r, rows, columns, c, n);
    }
    if forall n :: 0 <= n < rows * columns * c ==> ValueAt(l, r, rows, columns, c, n) == 1.0 {
      forall p | 0 <= p < |l| ensures l[p] == r[p] {
        ValueOneMeansEqual(l, r, rows, columns, c, p);
      }
    }
  }
}
