/**
  Confidence receipts (tools/comfy_confidence.py): the comparison of two artifacts, the two validators a
  receipt must pass, and the create and verify pair.

  Floating-point numbers are exact reals; hashing, reading JSON and NumPy bytes, rounding a decimal to a float
  and the textual checks are parameters.
 */
module ConfidenceReceipt {
  import opened Integers
  import opened Wrappers
  import opened DecimalDifference
  import opened JsonData

  const MAX_ARTIFACT_BYTES := 64 * 1024 * 1024
  const MAX_RECEIPT_BYTES := 1024 * 1024

  type Data = seq<int>

  datatype Comparator = ExactValue | NumericValue | ExactArray | NumericArray

  datatype DataKind = ValueData | Image | Mask | Tensor

  datatype Tier = ExactTier | Parametric | Equivalent | Grouped

  datatype Metric = MaxAbs | MeanAbs | MismatchFraction

  datatype Tolerance = Tolerance(metric: Metric, threshold: real)

  datatype Comparison = Comparison(comparator: Comparator, dataKind: DataKind, tolerances: Option<seq<Tolerance>>)

  /** One observation: a flag, a finite number (`whole` when it was written as an integer), or JSON null. */
  datatype Item = Flag(flag: bool) | Number(number: real, whole: bool) | Missing

  type Observed = map<string, Item>

  datatype Array = Array(dtype: string, floating: bool, shape: seq<nat>, values: seq<real>)

  datatype Descriptor = Descriptor(path: string, size: nat, sha256: string)

  datatype Mapping = Mapping(tier: Tier, wire: string)

  datatype Receipt = Receipt(
    caseId: string,
    mapping: Mapping,
    parameters: Json,
    comparison: Comparison,
    reference: Descriptor,
    native: Descriptor,
    observed: Observed,
    pass: bool)

  /** An ordinary file: its bytes and its device and inode. */
  datatype File = File(data: Data, identity: int)

  type Files = map<string, File>

  datatype World = World(
    sha256: Data -> string,
    readJson: Data -> Option<Json>,
    readArray: Data -> Option<Array>,
    toFloat: Decimal -> Option<real>,
    canonicalPath: string -> bool,
    canonicalCase: string -> bool,
    mappingOk: Mapping -> bool,
    receiptSize: Receipt -> nat)

  datatype Refusal = Refusal(reason: string)

  // ---- the comparison block -----------------------------------------------

  function Tolerances(c: Comparison): seq<Tolerance> {
    if c.tolerances.Some? then c.tolerances.value else []
  }

  predicate Numeric(c: Comparator) {
    c == NumericValue || c == NumericArray
  }

  predicate ValidThreshold(t: Tolerance) {
    t.threshold >= 0.0 && (t.metric == MismatchFraction ==> t.threshold <= 1.0)
  }

  ghost predicate ValidComparison(c: Comparison, tier: Tier) {
    && ((c.comparator == ExactValue || c.comparator == NumericValue) <==> c.dataKind == ValueData)
    && (forall i :: 0 <= i < |Tolerances(c)| ==> ValidThreshold(Tolerances(c)[i]))
    && (forall i, j :: 0 <= i < j < |Tolerances(c)| ==> Tolerances(c)[i].metric != Tolerances(c)[j].metric)
    && (Numeric(c.comparator) <==> Tolerances(c) != [])
    && (!Numeric(c.comparator) ==> c.tolerances == None)
    && (tier == ExactTier ==> c.comparator == ExactValue || c.comparator == ExactArray)
    && (tier == Equivalent ==> Numeric(c.comparator))
  }

  /** `_validate_comparison`: one pass over the tolerances, then the rules that join the parts. */
  method ValidateComparison(c: Comparison, tier: Tier) returns (ok: bool)
    ensures ok <==> ValidComparison(c, tier)
  {
    if (c.comparator == ExactValue || c.comparator == NumericValue) != (c.dataKind == ValueData) {
      return false;
    }
    var wires := Tolerances(c);
    var metrics: set<Metric> := {};
    var repeated := false;
    for k := 0 to |wires|
      invariant forall i :: 0 <= i < k ==> ValidThreshold(wires[i])
      invariant forall m :: m in metrics <==> exists i :: 0 <= i < k && wires[i].metric == m
      invariant repeated <==> exists i, j :: 0 <= i < j < k && wires[i].metric == wires[j].metric
    {
      if wires[k].threshold < 0.0 || (wires[k].metric == MismatchFraction && wires[k].threshold > 1.0) {
        assert !ValidThreshold(wires[k]);
        return false;
      }
      repeated := repeated || wires[k].metric in metrics;
      metrics := metrics + {wires[k].metric};
    }
    if repeated {
      return false;
    }
    var numeric := Numeric(c.comparator);
    if numeric != (wires != []) || (!numeric && c.tolerances.Some?) {
      return false;
    }
    if tier == ExactTier && c.comparator != ExactValue && c.comparator != ExactArray {
      return false;
    }
    return !(tier == Equivalent && !numeric);
  }

  // ---- recorded observations ----------------------------------------------

  function Fields(c: Comparator): set<string> {
    match c
    case ExactValue => {"equal"}
    case ExactArray => {"dtype_equal", "shape_equal", "values_equal"}
    case _ => {"shape_equal", "max_abs", "mean_abs", "mismatch_fraction"}
  }

  function MetricName(m: Metric): string {
    match m
    case MaxAbs => "max_abs"
    case MeanAbs => "mean_abs"
    case MismatchFraction => "mismatch_fraction"
  }

  /** `_validate_observed`. */
  predicate ValidObserved(o: Observed, c: Comparator) {
    && o.Keys == Fields(c)
    && (!Numeric(c) ==> forall name :: name in o ==> o[name].Flag?)
    && (Numeric(c) ==> o["shape_equal"].Flag? && !o["max_abs"].Flag? && !o["mean_abs"].Flag? && !o["mismatch_fraction"].Flag?)
  }

  predicate Within(o: Observed, t: Tolerance) {
    MetricName(t.metric) in o && o[MetricName(t.metric)].Number? && o[MetricName(t.metric)].number <= t.threshold
  }

  function RecordedPass(o: Observed, c: Comparison): Result<bool, Refusal>
    requires ValidObserved(o, c.comparator)
  {
    match c.comparator
    case ExactValue => Success(o["equal"].flag)
    case ExactArray =>
      if o["values_equal"].flag && !(o["shape_equal"].flag && o["dtype_equal"].flag) then
        Failure(Refusal("exact array equality requires matching shape and dtype observations"))
      else Success(o["values_equal"].flag)
    case _ =>
      var measured := o["max_abs"].Number? && o["mean_abs"].Number? && o["mismatch_fraction"].Number?;
      if o["shape_equal"].flag != measured then
        Failure(Refusal("numeric observations require all metrics exactly when shapes match"))
      else if !o["shape_equal"].flag then Success(false)
      else Success(forall i :: 0 <= i < |Tolerances(c)| ==> Within(o, Tolerances(c)[i]))
  }

  /** The loop over the tolerances of `_recorded_pass`. */
  method CheckTolerances(o: Observed, c: Comparison) returns (passed: bool)
    requires ValidObserved(o, c.comparator) && Numeric(c.comparator)
    requires o["max_abs"].Number? && o["mean_abs"].Number? && o["mismatch_fraction"].Number?
    ensures passed <==> forall i :: 0 <= i < |Tolerances(c)| ==> Within(o, Tolerances(c)[i])
  {
    passed := true;
    var tolerances := Tolerances(c);
    for k := 0 to |tolerances|
      invariant passed <==> forall i :: 0 <= i < k ==> Within(o, tolerances[i])
    {
      var actual := o[MetricName(tolerances[k].metric)];
      passed := passed && actual.number <= tolerances[k].threshold;
    }
  }

  // ---- comparing ----------------------------------------------------------

  function JsonNumber(j: Json): Option<Decimal> {
    match j
    case Int(n) => Some(Decimal(n < 0, Abs(n), 0))
    case Dec(finite, d) => if finite then Some(d) else None
    case _ => None
  }

  function JsonArtifact(w: World, data: Data): Option<Json> {
    match w.readJson(data)
    case Some(j) => if Acceptable(j, true) then Some(j) else None
    case None => None
  }

  function Product(shape: seq<nat>): nat {
    if shape == [] then 1 else Product(shape[..|shape| - 1]) * shape[|shape| - 1]
  }

  /** A readable array has as many values as its shape says. */
  function ArrayArtifact(w: World, data: Data): Option<Array> {
    match w.readArray(data)
    case Some(a) => if |a.values| == Product(a.shape) then Some(a) else None
    case None => None
  }

  function Magnitude(x: real): real {
    if x < 0.0 then -x else x
  }

  function Errors(a: seq<real>, b: seq<real>): (e: seq<real>)
    requires |a| == |b|
    ensures |e| == |a| && forall i :: 0 <= i < |e| ==> e[i] == Magnitude(a[i] - b[i])
  {
    seq(|a|, i requires 0 <= i < |a| => Magnitude(a[i] - b[i]))
  }

  function Maximum(e: seq<real>): real {
    if e == [] then 0.0
    else
      var rest := Maximum(e[..|e| - 1]);
      if rest <= e[|e| - 1] then e[|e| - 1] else rest
  }

  function Sum(e: seq<real>): real {
    if e == [] then 0.0 else Sum(e[..|e| - 1]) + e[|e| - 1]
  }

  function Nonzero(e: seq<real>): nat {
    if e == [] then 0 else Nonzero(e[..|e| - 1]) + if e[|e| - 1] != 0.0 then 1 else 0
  }

  function NumericObservation(max: real, mean: real, mismatch: real): Observed {
    map["shape_equal" := Flag(true), "max_abs" := Number(max, false), "mean_abs" := Number(mean, false),
        "mismatch_fraction" := Number(mismatch, false)]
  }

  function Measure(e: seq<real>): Observed {
    if e == [] then NumericObservation(0.0, 0.0, 0.0)
    else NumericObservation(Maximum(e), Sum(e) / (|e| as real), (Nonzero(e) as real) / (|e| as real))
  }

  function Recorded(o: Observed, c: Comparison): Result<(Observed, bool), Refusal>
    requires ValidObserved(o, c.comparator)
  {
    match RecordedPass(o, c)
    case Success(passed) => Success((o, passed))
    case Failure(refusal) => Failure(refusal)
  }

  function CompareNumbers(w: World, left: Json, right: Json, c: Comparison): Result<(Observed, bool), Refusal>
    requires c.comparator == NumericValue
  {
    match (JsonNumber(left), JsonNumber(right))
    case (Some(a), Some(b)) =>
      (match AbsoluteDifference(a, b)
       case Failure(_) => Failure(Refusal("numeric JSON difference exceeds float64"))
       case Success(distance) =>
         match w.toFloat(distance)
         case None => Failure(Refusal("numeric JSON difference exceeds float64"))
         case Some(error) =>
           if !IsZero(distance) && error == 0.0 then Failure(Refusal("numeric JSON difference exceeds float64"))
           else Recorded(NumericObservation(error, error, if error == 0.0 then 0.0 else 1.0), c))
    case _ => Failure(Refusal("value artifact must be a finite JSON number"))
  }

  function CompareArrays(a: Array, b: Array, c: Comparison): Result<(Observed, bool), Refusal>
    requires |a.values| == Product(a.shape) && |b.values| == Product(b.shape)
    requires c.comparator == ExactArray || c.comparator == NumericArray
  {
    var shapeEqual := a.shape == b.shape;
    if c.comparator == ExactArray then
      var dtypeEqual := a.dtype == b.dtype;
      var valuesEqual := shapeEqual && dtypeEqual && a.values == b.values;
      Success((map["dtype_equal" := Flag(dtypeEqual), "shape_equal" := Flag(shapeEqual), "values_equal" := Flag(valuesEqual)], valuesEqual))
    else if !a.floating || !b.floating then Failure(Refusal("numeric-array/1 requires floating-point arrays"))
    else if !shapeEqual then
      Success((map["shape_equal" := Flag(false), "max_abs" := Missing, "mean_abs" := Missing, "mismatch_fraction" := Missing], false))
    else Recorded(Measure(Errors(a.values, b.values)), c)
  }

  function Compare(w: World, reference: Data, native: Data, c: Comparison): Result<(Observed, bool), Refusal> {
    if c.comparator == ExactValue || c.comparator == NumericValue then
      match (JsonArtifact(w, reference), JsonArtifact(w, native))
      case (Some(left), Some(right)) =>
        if c.comparator == NumericValue then CompareNumbers(w, left, right, c)
        else Success((map["equal" := Flag(Exact(left, right))], Exact(left, right)))
      case _ => Failure(Refusal("value artifact is not valid JSON"))
    else
      match (ArrayArtifact(w, reference), ArrayArtifact(w, native))
      case (Some(a), Some(b)) => CompareArrays(a, b, c)
      case _ => Failure(Refusal("array artifact is not a safe NumPy array"))
  }

  /** What a result says is valid as observations, and its verdict is the recomputed one. */
  predicate IsRecorded(r: Result<(Observed, bool), Refusal>, c: Comparison) {
    r.Success? ==> ValidObserved(r.value.0, c.comparator) && RecordedPass(r.value.0, c) == Success(r.value.1)
  }

  lemma NumbersAreRecorded(w: World, left: Json, right: Json, c: Comparison)
    requires c.comparator == NumericValue
    ensures IsRecorded(CompareNumbers(w, left, right, c), c)
  {
  }

  lemma FlagsAreRecorded(dtypeEqual: bool, shapeEqual: bool, valuesEqual: bool, c: Comparison)
    requires c.comparator == ExactArray && (valuesEqual ==> dtypeEqual && shapeEqual)
    ensures IsRecorded(Success((map["dtype_equal" := Flag(dtypeEqual), "shape_equal" := Flag(shapeEqual),
                                    "values_equal" := Flag(valuesEqual)], valuesEqual)), c)
  {
  }

  lemma MissingIsRecorded(c: Comparison)
    requires c.comparator == NumericArray
    ensures IsRecorded(Success((map["shape_equal" := Flag(false), "max_abs" := Missing, "mean_abs" := Missing,
                                    "mismatch_fraction" := Missing], false)), c)
  {
  }

  lemma ArraysAreRecorded(a: Array, b: Array, c: Comparison)
    requires |a.values| == Product(a.shape) && |b.values| == Product(b.shape)
    requires c.comparator == ExactArray || c.comparator == NumericArray
    ensures IsRecorded(CompareArrays(a, b, c), c)
  {
    if c.comparator == ExactArray {
      FlagsAreRecorded(a.dtype == b.dtype, a.shape == b.shape,
                       a.shape == b.shape && a.dtype == b.dtype && a.values == b.values, c);
    } else if a.shape != b.shape {
      MissingIsRecorded(c);
    } else {
      MeasureIsRecorded(Errors(a.values, b.values), c);
    }
  }

  lemma MeasureIsRecorded(e: seq<real>, c: Comparison)
    requires c.comparator == NumericArray
    ensures IsRecorded(Recorded(Measure(e), c), c)
  {
  }

  /** Whatever a comparison observes passes the receipt's own validator, and its verdict is the one that the
      validator recomputes from the observations. */
  lemma ComparisonIsRecorded(w: World, reference: Data, native: Data, c: Comparison)
    requires Compare(w, reference, native, c).Success?
    ensures var (observed, passed) := Compare(w, reference, native, c).value;
            ValidObserved(observed, c.comparator) && RecordedPass(observed, c) == Success(passed)
  {
    var r := Compare(w, reference, native, c);
    if c.comparator == NumericValue {
      NumbersAreRecorded(w, JsonArtifact(w, reference).value, JsonArtifact(w, native).value, c);
    } else if c.comparator != ExactValue {
      ArraysAreRecorded(ArrayArtifact(w, reference).value, ArrayArtifact(w, native).value, c);
    }
    assert IsRecorded(r, c);
  }

  /** Two numbers whose distance is computable and survives rounding to a float. */
  predicate Measurable(w: World, left: Json, right: Json) {
    JsonNumber(left).Some? && JsonNumber(right).Some? &&
    var distance := AbsoluteDifference(JsonNumber(left).value, JsonNumber(right).value);
    distance.Success? && w.toFloat(distance.value).Some? && (IsZero(distance.value) || w.toFloat(distance.value).value != 0.0)
  }

  lemma MeasuredIsRecorded(max: real, mean: real, mismatch: real, c: Comparison)
    requires Numeric(c.comparator)
    ensures var o := NumericObservation(max, mean, mismatch); ValidObserved(o, c.comparator) && Recorded(o, c).Success?
  {
  }

  lemma NumbersFailOnDistance(w: World, left: Json, right: Json, c: Comparison)
    requires c.comparator == NumericValue
    ensures CompareNumbers(w, left, right, c).Success? <==> Measurable(w, left, right)
  {
    if Measurable(w, left, right) {
      var error := w.toFloat(AbsoluteDifference(JsonNumber(left).value, JsonNumber(right).value).value).value;
      MeasuredIsRecorded(error, error, if error == 0.0 then 0.0 else 1.0, c);
    }
  }

  lemma ArraysFailOnKind(a: Array, b: Array, c: Comparison)
    requires |a.values| == Product(a.shape) && |b.values| == Product(b.shape)
    requires c.comparator == ExactArray || c.comparator == NumericArray
    ensures CompareArrays(a, b, c).Success? <==> c.comparator == ExactArray || (a.floating && b.floating)
  {
    if c.comparator == NumericArray && a.shape == b.shape {
      var e := Errors(a.values, b.values);
      MeasuredIsRecorded(0.0, 0.0, 0.0, c);
      if e != [] {
        MeasuredIsRecorded(Maximum(e), Sum(e) / (|e| as real), (Nonzero(e) as real) / (|e| as real), c);
      }
    }
  }

  /** A comparison of readable artifacts fails only for what the artifacts are: the consistency checks of the
      record never turn a measurement away. */
  lemma ComparisonFailsOnArtifactsOnly(w: World, reference: Data, native: Data, c: Comparison)
    ensures Compare(w, reference, native, c).Success? <==>
            match c.comparator
            case ExactValue => JsonArtifact(w, reference).Some? && JsonArtifact(w, native).Some?
            case NumericValue =>
              JsonArtifact(w, reference).Some? && JsonArtifact(w, native).Some? &&
              Measurable(w, JsonArtifact(w, reference).value, JsonArtifact(w, native).value)
            case ExactArray => ArrayArtifact(w, reference).Some? && ArrayArtifact(w, native).Some?
            case NumericArray =>
              ArrayArtifact(w, reference).Some? && ArrayArtifact(w, native).Some? &&
              ArrayArtifact(w, reference).value.floating && ArrayArtifact(w, native).value.floating
  {
    match c.comparator {
      case ExactValue =>
      case NumericValue =>
        if JsonArtifact(w, reference).Some? && JsonArtifact(w, native).Some? {
          NumbersFailOnDistance(w, JsonArtifact(w, reference).value, JsonArtifact(w, native).value, c);
        }
      case _ =>
        if ArrayArtifact(w, reference).Some? && ArrayArtifact(w, native).Some? {
          ArraysFailOnKind(ArrayArtifact(w, reference).value, ArrayArtifact(w, native).value, c);
        }
    }
  }

  // ---- the metrics --------------------------------------------------------

  lemma {:induction false} MetricBounds(e: seq<real>)
    requires forall i :: 0 <= i < |e| ==> e[i] >= 0.0
    ensures forall i :: 0 <= i < |e| ==> e[i] <= Maximum(e)
    ensures 0.0 <= Sum(e) <= Maximum(e) * (|e| as real)
    ensures Nonzero(e) <= |e|
    ensures Maximum(e) >= 0.0
    ensures Nonzero(e) == 0 <==> Maximum(e) == 0.0
    ensures Nonzero(e) == 0 <==> Sum(e) == 0.0
  {
    if e != [] {
      var n := |e| - 1;
      MetricBounds(e[..n]);
      assert forall i :: 0 <= i < n ==> e[i] == e[..n][i];
      Scale(Maximum(e[..n]), Maximum(e), n);
    }
  }

  lemma Scale(a: real, b: real, n: nat)
    requires 0.0 <= a <= b
    ensures a * (n as real) <= b * (n as real)
    ensures b * ((n + 1) as real) == b * (n as real) + b
  {
  }

  lemma Quotient(a: real, b: real, n: real)
    requires n > 0.0 && 0.0 <= a <= b * n
    ensures 0.0 <= a / n <= b
  {
  }

  /** The three metrics of two arrays agree with each other: the mean never exceeds the maximum, the mismatch
      is a fraction, and all three are zero exactly when the arrays are equal. */
  lemma MetricsAreCoherent(a: seq<real>, b: seq<real>)
    requires |a| == |b|
    ensures var o := Measure(Errors(a, b));
            && 0.0 <= o["mean_abs"].number <= o["max_abs"].number
            && 0.0 <= o["mismatch_fraction"].number <= 1.0
            && (a == b <==> o["max_abs"].number == 0.0)
            && (a == b <==> o["mean_abs"].number == 0.0)
            && (a == b <==> o["mismatch_fraction"].number == 0.0)
  {
    hide Maximum, Sum, Nonzero, Errors;
    var e := Errors(a, b);
    MetricBounds(e);
    EqualMeansNoError(a, b);
    if e != [] {
      var n := |e| as real;
      Quotient(Sum(e), Maximum(e), n);
      Quotient(Nonzero(e) as real, 1.0, n);
      ZeroQuotient(Sum(e), n);
      ZeroQuotient(Nonzero(e) as real, n);
    }
  }

  lemma ZeroQuotient(a: real, n: real)
    requires n > 0.0
    ensures a / n == 0.0 <==> a == 0.0
  {
    assert (a / n) * n == a;
  }

  lemma {:induction false} EqualMeansNoError(a: seq<real>, b: seq<real>)
    requires |a| == |b|
    ensures a == b <==> Nonzero(Errors(a, b)) == 0
  {
    if a != [] {
      var n := |a| - 1;
      EqualMeansNoError(a[..n], b[..n]);
      assert Errors(a, b)[..n] == Errors(a[..n], b[..n]);
      assert a == a[..n] + [a[n]] && b == b[..n] + [b[n]];
    }
  }

  // ---- receipts -----------------------------------------------------------

  predicate ValidDescriptor(w: World, d: Descriptor) {
    w.canonicalPath(d.path) && 0 < d.size <= MAX_ARTIFACT_BYTES
  }

  ghost predicate ValidReceipt(w: World, r: Receipt) {
    && w.canonicalCase(r.caseId)
    && w.mappingOk(r.mapping)
    && r.parameters.Obj? && Acceptable(r.parameters, false)
    && ValidComparison(r.comparison, r.mapping.tier)
    && ValidDescriptor(w, r.reference) && ValidDescriptor(w, r.native)
    && r.reference.path != r.native.path
    && ValidObserved(r.observed, r.comparison.comparator)
    && RecordedPass(r.observed, r.comparison) == Success(r.pass)
    && w.receiptSize(r) <= MAX_RECEIPT_BYTES
  }

  function Describe(w: World, files: Files, path: string): Option<Descriptor> {
    if w.canonicalPath(path) && path in files && 0 < |files[path].data| <= MAX_ARTIFACT_BYTES
    then Some(Descriptor(path, |files[path].data|, w.sha256(files[path].data)))
    else None
  }

  method ValidateReceipt(w: World, r: Receipt) returns (ok: bool)
    ensures ok <==> ValidReceipt(w, r)
  {
    if !w.canonicalCase(r.caseId) || !w.mappingOk(r.mapping) || !r.parameters.Obj? {
      return false;
    }
    var parameters := ValidateJson(r.parameters, false);
    if parameters.Failure? {
      return false;
    }
    var comparison := ValidateComparison(r.comparison, r.mapping.tier);
    if !comparison || !ValidDescriptor(w, r.reference) || !ValidDescriptor(w, r.native) || r.reference.path == r.native.path {
      return false;
    }
    if !ValidObserved(r.observed, r.comparison.comparator) {
      return false;
    }
    return RecordedPass(r.observed, r.comparison) == Success(r.pass) && w.receiptSize(r) <= MAX_RECEIPT_BYTES;
  }

  method CreateReceipt(w: World, files: Files, caseId: string, mapping: Mapping, parameters: Json, comparison: Comparison,
                       referencePath: string, nativePath: string) returns (r: Option<Receipt>)
    ensures r.Some? ==> IsCreated(w, files, r.value)
    ensures r.Some? ==> r.value.caseId == caseId && r.value.mapping == mapping && r.value.parameters == parameters
                        && r.value.comparison == comparison
                        && r.value.reference.path == referencePath && r.value.native.path == nativePath
    ensures forall x :: IsCreated(w, files, x) && x.caseId == caseId && x.mapping == mapping && x.parameters == parameters
                        && x.comparison == comparison && x.reference.path == referencePath && x.native.path == nativePath
                        ==> r == Some(x)
  {
    if !w.mappingOk(mapping) {
      return None;
    }
    var parametersOk := ValidateJson(parameters, false);
    var comparisonOk := ValidateComparison(comparison, mapping.tier);
    if parametersOk.Failure? || !comparisonOk {
      return None;
    }
    var reference, native := Describe(w, files, referencePath), Describe(w, files, nativePath);
    if reference == None || native == None || files[referencePath].identity == files[nativePath].identity {
      return None;
    }
    var compared := Compare(w, files[referencePath].data, files[nativePath].data, comparison);
    if compared.Failure? {
      return None;
    }
    var receipt := Receipt(caseId, mapping, parameters, comparison, reference.value, native.value, compared.value.0, compared.value.1);
    var valid := ValidateReceipt(w, receipt);
    return if valid then Some(receipt) else None;
  }

  /** The receipt is valid, describes two distinct files as they are, and records what comparing them gives. */
  ghost predicate IsCreated(w: World, files: Files, r: Receipt) {
    && ValidReceipt(w, r)
    && Describe(w, files, r.reference.path) == Some(r.reference)
    && Describe(w, files, r.native.path) == Some(r.native)
    && files[r.reference.path].identity != files[r.native.path].identity
    && Compare(w, files[r.reference.path].data, files[r.native.path].data, r.comparison) == Success((r.observed, r.pass))
  }

  /** Verification accepts exactly the receipts that creation could have returned over the same files: every
      one that creation returned, and none whose artifacts or observations differ. */
  method VerifyReceipt(w: World, files: Files, r: Receipt) returns (ok: bool)
    ensures ok <==> IsCreated(w, files, r)
  {
    var valid := ValidateReceipt(w, r);
    if !valid {
      return false;
    }
    var reference := Describe(w, files, r.reference.path);
    if reference != Some(r.reference) {
      return false;
    }
    var native := Describe(w, files, r.native.path);
    if native != Some(r.native) {
      return false;
    }
    if files[r.reference.path].identity == files[r.native.path].identity {
      return false;
    }
    var compared := Compare(w, files[r.reference.path].data, files[r.native.path].data, r.comparison);
    if compared.Failure? {
      return false;
    }
    return compared.value.0 == r.observed && compared.value.1 == r.pass;
  }

  ghost predicate Collisionless(w: World) {
    forall a, b :: w.sha256(a) == w.sha256(b) ==> a == b
  }

  /** The bytes that the receipt is about are the same in both sets of files. */
  predicate SameArtifacts(f: Files, g: Files, r: Receipt)
    requires r.reference.path in f && r.native.path in f
  {
    && r.reference.path in g && r.native.path in g
    && g[r.reference.path].data == f[r.reference.path].data && g[r.native.path].data == f[r.native.path].data
    && g[r.reference.path].identity != g[r.native.path].identity
  }

  /** A receipt that verifies over some files verifies over others exactly when these hold the same bytes under
      its two paths, in two files. */
  lemma ReceiptPinsArtifacts(w: World, f: Files, g: Files, r: Receipt)
    requires Collisionless(w) && IsCreated(w, f, r)
    ensures IsCreated(w, g, r) <==> SameArtifacts(f, g, r)
  {
    if IsCreated(w, g, r) {
      assert w.sha256(f[r.reference.path].data) == w.sha256(g[r.reference.path].data);
      assert w.sha256(f[r.native.path].data) == w.sha256(g[r.native.path].data);
    }
  }

  /** No observation is written as an integer. */
  ghost predicate Floats(o: Observed) {
    forall name :: name in o && o[name].Number? ==> !o[name].whole
  }

  lemma ComparisonGivesFloats(w: World, reference: Data, native: Data, c: Comparison)
    requires Compare(w, reference, native, c).Success?
    ensures Floats(Compare(w, reference, native, c).value.0)
  {
    hide RecordedPass;
  }

  /** The validator lets an integer stand for an observation, but such a receipt never reproduces. */
  lemma WholeObservationIsRefused(w: World, files: Files, r: Receipt, name: string)
    requires name in r.observed && r.observed[name].Number? && r.observed[name].whole
    ensures !IsCreated(w, files, r)
  {
    if IsCreated(w, files, r) {
      ComparisonGivesFloats(w, files[r.reference.path].data, files[r.native.path].data, r.comparison);
      assert false;
    }
  }
}
