/**
  The quality metrics of two captured arrays (scripts/compare_attention_quality.py, `array_metrics`).

  An array is its shape and its frames, the slices along the first axis in row-major order. Finite elements are
  exact reals, sums are exact, and the square root is any function that gives exact positive roots.
 */
module AttentionMetrics {
  import opened Wrappers
  import opened RealSums
  import opened SsimWindows

  datatype Element = Finite(value: real) | NonFinite

  datatype Capture = Capture(shape: seq<nat>, frames: seq<seq<Element>>)

  datatype Error = ShapesDiffer | NoElements | NoAxis | NotFinite | NotImageFrames | NotDivisible

  datatype Metrics = Metrics(elements: nat, cosine: real, meanError: real, maxError: real,
                             baseline: (real, real), candidate: (real, real), ssim: Option<(real, nat)>)

  function Product(shape: seq<nat>): nat {
    if shape == [] then 1 else shape[0] * Product(shape[1..])
  }

  /** What NumPy guarantees of an array. */
  ghost predicate IsArray(a: Capture) {
    a.shape != [] ==> |a.frames| == a.shape[0]
                      && forall i :: 0 <= i < |a.frames| ==> |a.frames[i]| == Product(a.shape[1..])
  }

  predicate AllFinite(frame: seq<Element>) {
    forall i :: 0 <= i < |frame| ==> frame[i].Finite?
  }

  function Reals(frame: seq<Element>): (r: seq<real>)
    requires AllFinite(frame)
    ensures |r| == |frame|
  {
    seq(|frame|, i requires 0 <= i < |frame| => frame[i].value)
  }

  ghost predicate IsRoot(root: real -> real) {
    forall x :: x > 0.0 ==> root(x) > 0.0 && Squared(root(x)) == x
  }

  // ---- _cosine ---------------------------------------------------------------

  function Cosine(dot: real, leftSquare: real, rightSquare: real, root: real -> real): real
    requires IsRoot(root) && leftSquare >= 0.0 && rightSquare >= 0.0
  {
    if leftSquare == 0.0 && rightSquare == 0.0 then 1.0
    else if leftSquare == 0.0 || rightSquare == 0.0 then 0.0
    else
      PositiveTimes(leftSquare, rightSquare);
      dot / root(Times(leftSquare, rightSquare))
  }

  lemma PositiveTimes(x: real, y: real)
    requires x > 0.0 && y > 0.0
    ensures Times(x, y) > 0.0
  {
    Monotone(x, 0.0, y);
    assert Times(x, 0.0) == 0.0;
  }

  lemma SquareOrder(x: real, y: real)
    requires x >= 0.0 && y >= 0.0
    ensures Squared(x) <= Squared(y) <==> x <= y
  {
    Commute(x, y);
    if x <= y {
      Monotone(x, x, y);
      Monotone(y, x, y);
    } else {
      Monotone(x, y, x);
      Monotone(y, y, x);
    }
  }

  lemma Magnitude(x: real)
    ensures Squared(Abs(x)) == Squared(x)
  {
    Negate(x, x);
  }

  // ---- the metrics of whole arrays ------------------------------------------------

  function ShapeError(shape: seq<nat>): Option<Error> {
    if |shape| != 3 || shape[2] !in {1, 3, 4} then Some(NotImageFrames)
    else if shape[0] % WINDOW != 0 || shape[1] % WINDOW != 0 then Some(NotDivisible)
    else None
  }

  lemma {:induction false} FrameOfShape(shape: seq<nat>, frame: seq<real>)
    requires ShapeError(shape).None? && |frame| == Product(shape)
    ensures IsFrame(frame, shape[0] / WINDOW, shape[1] / WINDOW, shape[2])
  {
    assert shape[1..][1..][0] == shape[2] && shape[1..][1..][1..] == [];
    assert Product(shape[1..][1..]) == shape[2] * Product([]);
    assert shape[1..][0] == shape[1];
    var h, w, c := shape[0], shape[1], shape[2];
    assert Product(shape) == h * (w * c);
    assert h * (w * c) == h * w * c;
    assert h / WINDOW * WINDOW == h && w / WINDOW * WINDOW == w;
  }

  /** The window values of one frame of the given shape. */
  function FrameValues(shape: seq<nat>, left: seq<real>, right: seq<real>): seq<real>
    requires ShapeError(shape).None? && |left| == |right| == Product(shape)
  {
    FrameOfShape(shape, left);
    FrameOfShape(shape, right);
    Values(left, right, shape[0] / WINDOW, shape[1] / WINDOW, shape[2])
  }

  ghost predicate Comparable(left: seq<seq<real>>, right: seq<seq<real>>, size: nat) {
    |left| == |right| && forall i :: 0 <= i < |left| ==> |left[i]| == |right[i]| == size
  }

  /** All elements of the frames, in order. */
  function Flat(frames: seq<seq<real>>): seq<real> {
    if frames == [] then [] else Flat(frames[..|frames| - 1]) + frames[|frames| - 1]
  }

  function AllValues(shape: seq<nat>, left: seq<seq<real>>, right: seq<seq<real>>): seq<real>
    requires ShapeError(shape).None? && Comparable(left, right, Product(shape))
  {
    if left == [] then []
    else
      var n := |left| - 1;
      AllValues(shape, left[..n], right[..n]) + FrameValues(shape, left[n], right[n])
  }

  lemma {:induction false} FlatSize(frames: seq<seq<real>>, size: nat)
    requires forall i :: 0 <= i < |frames| ==> |frames[i]| == size
    ensures |Flat(frames)| == |frames| * size
  {
    if frames != [] {
      FlatSize(frames[..|frames| - 1], size);
      assert |frames| * size == (|frames| - 1) * size + size;
    }
  }

  /** What `array_metrics` reports, said of the arrays as wholes. */
  ghost predicate Describes(m: Metrics, shape: seq<nat>, left: seq<seq<real>>, right: seq<seq<real>>, image: bool,
                            root: real -> real)
    requires Comparable(left, right, Product(shape)) && Flat(left) != [] && |Flat(left)| == |Flat(right)|
    requires IsRoot(root) && (image ==> ShapeError(shape).None?)
  {
    var l, r := Flat(left), Flat(right);
    SquaresAddUp(l);
    SquaresAddUp(r);
    && m.elements == |l|
    && m.cosine == Cosine(Dot(l, r), Dot(l, l), Dot(r, r), root)
    && m.meanError == AbsoluteError(l, r) / |l| as real
    && m.maxError == LargestError(l, r)
    && m.baseline == (Lowest(l), Highest(l))
    && m.candidate == (Lowest(r), Highest(r))
    && (image ==> var v := AllValues(shape, left, right);
                  v != [] && m.ssim == Some((Sum(v) / |v| as real, |v|)))
    && (!image ==> m.ssim == None)
  }

  // ---- array_metrics ----------------------------------------------------------------

  function FrameError(shape: seq<nat>, left: seq<Element>, right: seq<Element>, image: bool): Option<Error> {
    if !AllFinite(left) || !AllFinite(right) then Some(NotFinite)
    else if image then ShapeError(shape)
    else None
  }

  /** The first error met when the frames are visited in order. */
  function FramesError(shape: seq<nat>, left: seq<seq<Element>>, right: seq<seq<Element>>, image: bool): Option<Error>
    requires |left| == |right|
  {
    if left == [] then None
    else
      var e := FrameError(shape, left[0], right[0], image);
      if e.Some? then e else FramesError(shape, left[1..], right[1..], image)
  }

  function MetricsError(b: Capture, c: Capture, image: bool): Option<Error>
    requires IsArray(b) && IsArray(c)
  {
    if b.shape != c.shape then Some(ShapesDiffer)
    else if Product(b.shape) == 0 then Some(NoElements)
    else if b.shape == [] then Some(NoAxis)
    else FramesError(b.shape[1..], b.frames, c.frames, image)
  }

  lemma {:induction false} NoErrorMeansFinite(shape: seq<nat>, left: seq<seq<Element>>, right: seq<seq<Element>>,
                                              image: bool)
    requires |left| == |right|
    ensures FramesError(shape, left, right, image).None? <==>
              (forall i :: 0 <= i < |left| ==> AllFinite(left[i]) && AllFinite(right[i]))
              && (image && left != [] ==> ShapeError(shape).None?)
    decreases |left|
  {
    if left != [] {
      NoErrorMeansFinite(shape, left[1..], right[1..], image);
      assert forall i :: 0 < i < |left| ==> left[i] == left[1..][i - 1] && right[i] == right[1..][i - 1];
      assert forall i :: 0 <= i < |left[1..]| ==> left[1..][i] == left[i + 1] && right[1..][i] == right[i + 1];
    }
  }

  function AllReals(frames: seq<seq<Element>>): (r: seq<seq<real>>)
    requires forall i :: 0 <= i < |frames| ==> AllFinite(frames[i])
    ensures |r| == |frames|
    ensures forall i :: 0 <= i < |frames| ==> r[i] == Reals(frames[i]) && |r[i]| == |frames[i]|
  {
    seq(|frames|, i requires 0 <= i < |frames| => Reals(frames[i]))
  }

  /** The running totals of the loop. */
  datatype Totals = Totals(dot: real, leftSquare: real, rightSquare: real, absoluteSum: real, maximum: real,
                           count: nat, lows: Option<(real, real)>, highs: Option<(real, real)>,
                           ssimSum: real, ssimCount: nat)

  ghost predicate TotalsOf(t: Totals, l: seq<real>, r: seq<real>)
    requires |l| == |r|
  {
    && t.dot == Dot(l, r) && t.leftSquare == Dot(l, l) && t.rightSquare == Dot(r, r)
    && t.absoluteSum == AbsoluteError(l, r) && t.maximum == LargestError(l, r) && t.count == |l|
    && (l == [] ==> t.lows.None? && t.highs.None?)
    && (l != [] ==> t.lows == Some((Lowest(l), Lowest(r))) && t.highs == Some((Highest(l), Highest(r))))
  }

  /** The bounds start at plus and minus infinity, which any value replaces. */
  function Lower(low: Option<(real, real)>, l: real, r: real): (real, real) {
    if low.None? then (l, r) else (Smaller(low.value.0, l), Smaller(low.value.1, r))
  }

  function Upper(high: Option<(real, real)>, l: real, r: real): (real, real) {
    if high.None? then (l, r) else (Larger(high.value.0, l), Larger(high.value.1, r))
  }

  method AddFrame(t: Totals, left: seq<real>, right: seq<real>, ghost l: seq<real>,
                  ghost r: seq<real>) returns (next: Totals)
    requires |l| == |r| && TotalsOf(t, l, r) && |left| == |right| && left != []
    ensures TotalsOf(next, l + left, r + right)
    ensures next.ssimSum == t.ssimSum && next.ssimCount == t.ssimCount
  {
    DotOfConcat(l, left, r, right);
    DotOfConcat(l, left, l, left);
    DotOfConcat(r, right, r, right);
    ErrorsOfConcat(l, left, r, right);
    if l == [] {
      assert l + left == left && r + right == right;
    } else {
      RangeOfConcat(l, left);
      RangeOfConcat(r, right);
    }
    next := t.(
      dot := t.dot + Dot(left, right),
      leftSquare := t.leftSquare + Dot(left, left),
      rightSquare := t.rightSquare + Dot(right, right),
      absoluteSum := t.absoluteSum + AbsoluteError(left, right),
      maximum := Larger(t.maximum, LargestError(left, right)),
      count := t.count + |left|,
      lows := Some(Lower(t.lows, Lowest(left), Lowest(right))),
      highs := Some(Upper(t.highs, Highest(left), Highest(right))));
  }

  /** What the totals say after the frames `ls` and `rs`. */
  ghost predicate Accumulated(t: Totals, shape: seq<nat>, ls: seq<seq<real>>, rs: seq<seq<real>>, image: bool) {
    && Comparable(ls, rs, Product(shape)) && |Flat(ls)| == |Flat(rs)| && TotalsOf(t, Flat(ls), Flat(rs))
    && (ls != [] ==> Flat(ls) != [])
    && (ls == [] ==> t.ssimSum == 0.0 && t.ssimCount == 0)
    && (image && ls != [] ==>
         && ShapeError(shape).None?
         && t.ssimSum == Sum(AllValues(shape, ls, rs)) && t.ssimCount == |AllValues(shape, ls, rs)|)
  }

  method AddSsim(t: Totals, shape: seq<nat>, left: seq<real>, right: seq<real>, ghost ls: seq<seq<real>>,
                 ghost rs: seq<seq<real>>)
    returns (next: Totals)
    requires ShapeError(shape).None? && |left| == |right| == Product(shape) && Comparable(ls, rs, Product(shape))
    requires t.ssimSum == Sum(AllValues(shape, ls, rs)) && t.ssimCount == |AllValues(shape, ls, rs)|
    ensures next == t.(ssimSum := next.ssimSum, ssimCount := next.ssimCount)
    ensures Comparable(ls + [left], rs + [right], Product(shape))
    ensures next.ssimSum == Sum(AllValues(shape, ls + [left], rs + [right]))
    ensures next.ssimCount == |AllValues(shape, ls + [left], rs + [right])|
  {
    var values := FrameValues(shape, left, right);
    SsimGrows(shape, ls, rs, left, right);
    next := t.(ssimSum := t.ssimSum + Sum(values), ssimCount := t.ssimCount + |values|);
  }

  method Step(t: Totals, shape: seq<nat>, left: seq<real>, right: seq<real>, image: bool,
              ghost ls: seq<seq<real>>, ghost rs: seq<seq<real>>)
    returns (e: Option<Error>, next: Totals)
    requires Accumulated(t, shape, ls, rs, image) && |left| == |right| == Product(shape) > 0
    ensures e == if image then ShapeError(shape) else None
    ensures e.None? ==> Accumulated(next, shape, ls + [left], rs + [right], image)
  {
    e := None;
    next := AddFrame(t, left, right, Flat(ls), Flat(rs));
    FlatGrows(ls, left);
    FlatGrows(rs, right);
    if image {
      e := ShapeError(shape);
      if e.Some? {
        return;
      }
      next := AddSsim(next, shape, left, right, ls, rs);
    }
  }

  method ArrayMetrics(b: Capture, c: Capture, image: bool, root: real -> real) returns (res: Result<Metrics, Error>)
    requires IsArray(b) && IsArray(c) && IsRoot(root)
    ensures res.Failure? <==> MetricsError(b, c, image).Some?
    ensures res.Failure? ==> MetricsError(b, c, image) == Some(res.error)
    ensures res.Success? ==> Measured(b, c, image, root, res.value)
  {
    if b.shape != c.shape {
      return Failure(ShapesDiffer);
    }
    if Product(b.shape) == 0 {
      return Failure(NoElements);
    }
    if b.shape == [] {
      return Failure(NoAxis);
    }
    var e, t := Accumulate(b, c, image);
    if e.Some? {
      return Failure(e.value);
    }
    var m := Report(t, b.shape[1..], AllReals(b.frames), AllReals(c.frames), image, root);
    return Success(m);
  }

  /** The loop over the frames. */
  method Accumulate(b: Capture, c: Capture, image: bool) returns (e: Option<Error>, t: Totals)
    requires IsArray(b) && IsArray(c) && b.shape == c.shape && b.shape != [] && Product(b.shape) > 0
    ensures e == FramesError(b.shape[1..], b.frames, c.frames, image)
    ensures e.None? ==> b.frames != []
    ensures e.None? ==> forall i :: 0 <= i < |b.frames| ==> AllFinite(b.frames[i]) && AllFinite(c.frames[i])
    ensures e.None? ==> Accumulated(t, b.shape[1..], AllReals(b.frames), AllReals(c.frames), image)
  {
    var shape := b.shape[1..];
    NonEmptyFrames(b.shape);
    e, t := None, Totals(0.0, 0.0, 0.0, 0.0, 0.0, 0, None, None, 0.0, 0);
    ghost var ls: seq<seq<real>>, rs: seq<seq<real>> := [], [];
    for index := 0 to |b.frames|
      invariant Read(b.frames, index, ls) && Read(c.frames, index, rs)
      invariant e.None? && Accumulated(t, shape, ls, rs, image)
      invariant FramesError(shape, b.frames, c.frames, image)
             == FramesError(shape, b.frames[index..], c.frames[index..], image)
    {
      NextFrame(shape, b.frames, c.frames, image, index);
      if !AllFinite(b.frames[index]) || !AllFinite(c.frames[index]) {
        e := Some(NotFinite);
        return;
      }
      var left, right := Reals(b.frames[index]), Reals(c.frames[index]);
      ReadOne(b.frames, index, ls);
      ReadOne(c.frames, index, rs);
      e, t := Step(t, shape, left, right, image, ls, rs);
      if e.Some? {
        return;
      }
      ls, rs := ls + [left], rs + [right];
    }
    assert ls == AllReals(b.frames) && rs == AllReals(c.frames);
  }

  /** The frames before `index` are finite, with these values. */
  ghost predicate Read(frames: seq<seq<Element>>, index: nat, values: seq<seq<real>>) {
    |values| == index <= |frames| &&
    forall i :: 0 <= i < index ==> AllFinite(frames[i]) && values[i] == Reals(frames[i])
  }

  lemma ReadOne(frames: seq<seq<Element>>, index: nat, values: seq<seq<real>>)
    requires Read(frames, index, values) && index < |frames| && AllFinite(frames[index])
    ensures Read(frames, index + 1, values + [Reals(frames[index])])
  {
  }

  lemma {:induction false} NextFrame(shape: seq<nat>, left: seq<seq<Element>>, right: seq<seq<Element>>, image: bool,
                                     index: nat)
    requires index < |left| == |right|
    ensures FramesError(shape, left[index..], right[index..], image) ==
              var e := FrameError(shape, left[index], right[index], image);
              if e.Some? then e else FramesError(shape, left[index + 1..], right[index + 1..], image)
  {
    assert left[index..][0] == left[index] && left[index..][1..] == left[index + 1..];
    assert right[index..][0] == right[index] && right[index..][1..] == right[index + 1..];
  }

  method Report(t: Totals, ghost shape: seq<nat>, ghost ls: seq<seq<real>>, ghost rs: seq<seq<real>>, image: bool,
                root: real -> real)
    returns (m: Metrics)
    requires IsRoot(root) && ls != [] && Accumulated(t, shape, ls, rs, image)
    ensures Describes(m, shape, ls, rs, image, root)
  {
    SquaresAddUp(Flat(ls));
    SquaresAddUp(Flat(rs));
    var ssim := None;
    if image {
      SsimIsCounted(shape, ls, rs);
      ssim := Some((t.ssimSum / t.ssimCount as real, t.ssimCount));
    }
    m := Metrics(t.count, Cosine(t.dot, t.leftSquare, t.rightSquare, root), t.absoluteSum / t.count as real, t.maximum,
      (t.lows.value.0, t.highs.value.0), (t.lows.value.1, t.highs.value.1), ssim);
  }

  lemma {:induction false} NonEmptyFrames(shape: seq<nat>)
    requires shape != [] && Product(shape) > 0
    ensures shape[0] > 0 && Product(shape[1..]) > 0
  {
  }

  lemma {:induction false} FlatGrows(frames: seq<seq<real>>, frame: seq<real>)
    ensures Flat(frames + [frame]) == Flat(frames) + frame
  {
    assert (frames + [frame])[..|frames|] == frames;
  }

  lemma {:induction false} SsimGrows(shape: seq<nat>, ls: seq<seq<real>>, rs: seq<seq<real>>, left: seq<real>,
                                     right: seq<real>)
    requires ShapeError(shape).None? && Comparable(ls, rs, Product(shape)) && |left| == |right| == Product(shape)
    ensures Comparable(ls + [left], rs + [right], Product(shape))
    ensures var v := AllValues(shape, ls + [left], rs + [right]);
            && Sum(v) == Sum(AllValues(shape, ls, rs)) + Sum(FrameValues(shape, left, right))
            && |v| == |AllValues(shape, ls, rs)| + |FrameValues(shape, left, right)|
  {
    assert (ls + [left])[..|ls|] == ls && (rs + [right])[..|rs|] == rs;
    SumOfConcat(AllValues(shape, ls, rs), FrameValues(shape, left, right));
  }

  lemma {:induction false} SsimIsCounted(shape: seq<nat>, ls: seq<seq<real>>, rs: seq<seq<real>>)
    requires ShapeError(shape).None? && Comparable(ls, rs, Product(shape))
    ensures |AllValues(shape, ls, rs)| * 64 == |Flat(ls)|
  {
    if ls != [] {
      var n := |ls| - 1;
      SsimIsCounted(shape, ls[..n], rs[..n]);
      FrameOfShape(shape, ls[n]);
      FrameOfShape(shape, rs[n]);
      SixtyFour(shape[0] / WINDOW, shape[1] / WINDOW, shape[2]);
    }
  }

  lemma SixtyFour(rows: nat, columns: nat, c: nat)
    ensures rows * columns * c * 64 == (rows * WINDOW) * (columns * WINDOW) * c
  {
    var p := rows * columns;
    assert (rows * WINDOW) * (columns * WINDOW) == p * 64;
    assert p * 64 * c == p * c * 64;
  }

  /** The frame-by-frame result is the result for the whole arrays. */
  ghost predicate Measured(b: Capture, c: Capture, image: bool, root: real -> real, m: Metrics)
    requires IsArray(b) && IsArray(c) && IsRoot(root) && MetricsError(b, c, image).None?
  {
    var shape := b.shape[1..];
    NoErrorMeansFinite(shape, b.frames, c.frames, image);
    NonEmptyFrames(b.shape);
    var left, right := AllReals(b.frames), AllReals(c.frames);
    FlatSize(left, Product(shape));
    FlatSize(right, Product(shape));
    NonEmptyProduct(|left|, Product(shape));
    Describes(m, shape, left, right, image, root)
  }

  lemma NonEmptyProduct(n: nat, size: nat)
    requires n > 0 && size > 0
    ensures n * size > 0
  {
  }
}
