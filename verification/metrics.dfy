/** `compute_metrics` in classification mode: every row of logits is reduced to the
    index of its largest value, and accuracy is the mean of the element-wise
    comparison with the gold label ids, following numpy's broadcasting. */
module Metrics {
  import opened Results

  /** A two-dimensional numpy array of logits. The column count is kept apart from the
      rows because an array without rows still has one. */
  datatype Matrix = Matrix(rows: seq<seq<real>>, cols: nat)

  /** Every row has `cols` values, as in any numpy array. */
  predicate Rectangular(m: Matrix) {
    forall i :: 0 <= i < |m.rows| ==> |m.rows[i]| == m.cols
  }

  datatype Predictions =
    | Array(logits: Matrix)
    | Tuple(parts: seq<Matrix>)  // the model returned extra outputs

  predicate WellShaped(p: Predictions) {
    match p
    case Array(m) => Rectangular(m)
    case Tuple(parts) => forall i :: 0 <= i < |parts| ==> Rectangular(parts[i])
  }

  datatype MetricError =
    | EmptyTuple     // `p.predictions[0]` of an empty tuple raises
    | EmptyRow       // `np.argmax` along an axis of length zero raises
    | ShapeMismatch  // the two arrays cannot be broadcast together
    | EmptyMean      // the mean of an empty comparison is NaN

  /** The logits `compute_metrics` looks at: the first element of a tuple. */
  function Logits(p: Predictions): (r: Result<Matrix, MetricError>)
    requires WellShaped(p)
    ensures p.Array? ==> r == Success(p.logits)
    ensures p.Tuple? ==> (r.Failure? <==> |p.parts| == 0)
    ensures p.Tuple? && |p.parts| > 0 ==> r == Success(p.parts[0])
    ensures r.Success? ==> Rectangular(r.value)
  {
    match p
    case Array(m) => Success(m)
    case Tuple(parts) => if |parts| == 0 then Failure(EmptyTuple) else Success(parts[0])
  }

  /** `np.argmax(row)`: the first index of a maximal value. */
  function ArgMax(row: seq<real>): (k: nat)
    requires |row| > 0
    ensures k < |row|
    ensures forall i :: 0 <= i < |row| ==> row[i] <= row[k]
    ensures forall i :: 0 <= i < k ==> row[i] < row[k]
  {
    if |row| == 1 then 0
    else
      var k := ArgMax(row[..|row| - 1]);
      assert forall i :: 0 <= i < |row| - 1 ==> row[..|row| - 1][i] == row[i];
      if row[|row| - 1] > row[k] then |row| - 1 else k
  }

  /** `np.argmax(preds, axis=1)`. */
  function ArgMaxRows(m: Matrix): (r: Result<seq<int>, MetricError>)
    requires Rectangular(m)
    ensures r.Failure? <==> m.cols == 0
    ensures r.Success? ==>
              |r.value| == |m.rows| &&
              forall i :: 0 <= i < |m.rows| ==> r.value[i] == ArgMax(m.rows[i])
  {
    if m.cols == 0 then Failure(EmptyRow)
    else Success(seq(|m.rows|, i requires 0 <= i < |m.rows| => ArgMax(m.rows[i])))
  }

  /** The number of positions where the two sequences agree. */
  function Matches(preds: seq<int>, gold: seq<int>): (c: nat)
    requires |preds| == |gold|
    ensures c <= |preds|
    ensures c == |preds| <==> forall i :: 0 <= i < |preds| ==> preds[i] == gold[i]
    ensures c == 0 <==> forall i :: 0 <= i < |preds| ==> preds[i] != gold[i]
  {
    if |preds| == 0 then 0
    else
      var c := Matches(preds[1..], gold[1..]);
      assert forall i :: 1 <= i < |preds| ==> preds[1..][i - 1] == preds[i];
      assert forall i :: 1 <= i < |gold| ==> gold[1..][i - 1] == gold[i];
      (if preds[0] == gold[0] then 1 else 0) + c
  }

  /** numpy's broadcasting of two one-dimensional arrays for `==`: equal lengths pair
      up, and a length-one array is repeated against the other. */
  function Broadcast(preds: seq<int>, gold: seq<int>)
    : (r: Result<(seq<int>, seq<int>), MetricError>)
    ensures r.Success? <==> |preds| == |gold| || |preds| == 1 || |gold| == 1
    ensures r.Success? ==>
              var (a, b) := r.value;
              |a| == |b| == (if |preds| == 1 then |gold| else |preds|) &&
              forall i :: 0 <= i < |a| ==>
                a[i] == preds[if |preds| == 1 then 0 else i] &&
                b[i] == gold[if |gold| == 1 then 0 else i]
  {
    if |preds| == |gold| then Success((preds, gold))
    else if |gold| == 1 then Success((preds, seq(|preds|, _ => gold[0])))
    else if |preds| == 1 then Success((seq(|gold|, _ => preds[0]), gold))
    else Failure(ShapeMismatch)
  }

  /** `c` hits out of `n` comparisons as a real fraction. */
  function Fraction(c: nat, n: nat): (f: real)
    requires 0 < n && c <= n
    ensures 0.0 <= f <= 1.0
    ensures f == 1.0 <==> c == n
    ensures f == 0.0 <==> c == 0
    ensures f * (n as real) == c as real
  {
    var f := (c as real) / (n as real);
    FractionFacts(c, n, f);
    f
  }

  lemma FractionFacts(c: nat, n: nat, f: real)
    requires 0 < n && c <= n && f == (c as real) / (n as real)
    ensures 0.0 <= f <= 1.0
    ensures f == 1.0 <==> c == n
    ensures f == 0.0 <==> c == 0
    ensures f * (n as real) == c as real
  {
  }

  /** `compute_metrics(p)["accuracy"]` with `is_regression` false. */
  function Accuracy(p: Predictions, gold: seq<int>): (r: Result<real, MetricError>)
    requires WellShaped(p)
    ensures r.Success? ==> 0.0 <= r.value <= 1.0
  {
    match Logits(p)
    case Failure(e) => Failure(e)
    case Success(m) =>
      match ArgMaxRows(m)
      case Failure(e) => Failure(e)
      case Success(preds) =>
        match Broadcast(preds, gold)
        case Failure(e) => Failure(e)
        case Success((a, b)) =>
          if |a| == 0 then Failure(EmptyMean)
          else Success(Fraction(Matches(a, b), |a|))
  }

  /** For a batch of non-empty logit rows with one gold id each, accuracy is the
      fraction of rows whose argmax is the gold id; it is 1 exactly when every row is
      right and 0 exactly when every row is wrong. */
  lemma AccuracyIsFractionCorrect(rows: seq<seq<real>>, cols: nat, gold: seq<int>)
    requires |rows| == |gold| > 0 && cols > 0
    requires Rectangular(Matrix(rows, cols))
    ensures var preds := seq(|rows|, i requires 0 <= i < |rows| => ArgMax(rows[i]));
            Accuracy(Array(Matrix(rows, cols)), gold) ==
              Success(Fraction(Matches(preds, gold), |rows|))
    ensures Accuracy(Array(Matrix(rows, cols)), gold) == Success(1.0) <==>
              forall i :: 0 <= i < |rows| ==> ArgMax(rows[i]) == gold[i]
    ensures Accuracy(Array(Matrix(rows, cols)), gold) == Success(0.0) <==>
              forall i :: 0 <= i < |rows| ==> ArgMax(rows[i]) != gold[i]
  {
    var preds := seq(|rows|, i requires 0 <= i < |rows| => ArgMax(rows[i]));
    var r := ArgMaxRows(Matrix(rows, cols));
    assert r.Success? && |r.value| == |preds|;
    assert forall i :: 0 <= i < |rows| ==> r.value[i] == preds[i];
    assert r.value == preds;
    assert r == Success(preds);
  }
}
