/** The pooling strategy (`merged_strategy`): the encoder's hidden states, a batch of
    time-major sequences of frame vectors, are reduced over the time axis to one
    vector per utterance by mean, sum or element-wise maximum. Values are exact reals. */
module Pooling {
  import opened Results

  datatype PoolingMode = Mean | Sum | Max

  datatype PoolError =
    | UnknownMode(mode: string)  // the exception raised for an undefined pooling mode
    | EmptyReduction              // torch.max over a time axis of length zero raises
    | UndefinedMean               // torch.mean over a time axis of length zero is NaN

  type Vector = seq<real>

  /** The configuration name of each mode. */
  function ModeName(m: PoolingMode): string {
    match m
    case Mean => "mean"
    case Sum => "sum"
    case Max => "max"
  }

  /** The mode test at the head of `merged_strategy`: any name other than the three
      is an error, never a silent default. */
  function ParseMode(name: string): (r: Result<PoolingMode, PoolError>)
    ensures r.Success? <==> name in {"mean", "sum", "max"}
    ensures r.Success? ==> ModeName(r.value) == name
    ensures r.Failure? ==> r.error == UnknownMode(name)
  {
    if name == "mean" then Success(Mean)
    else if name == "sum" then Success(Sum)
    else if name == "max" then Success(Max)
    else Failure(UnknownMode(name))
  }

  lemma ParseModeName(m: PoolingMode)
    ensures ParseMode(ModeName(m)) == Success(m)
  {
  }

  /** Every frame has `width` components. */
  predicate WellShaped(frames: seq<Vector>, width: nat) {
    forall t :: 0 <= t < |frames| ==> |frames[t]| == width
  }

  /** Reference total of column `j` over the time axis, first frame outward. */
  function ColumnSum(frames: seq<Vector>, j: nat): real
    requires forall t :: 0 <= t < |frames| ==> j < |frames[t]|
  {
    if |frames| == 0 then 0.0 else frames[0][j] + ColumnSum(frames[1..], j)
  }

  lemma {:induction false} ColumnSumSnoc(frames: seq<Vector>, j: nat)
    requires |frames| > 0
    requires forall t :: 0 <= t < |frames| ==> j < |frames[t]|
    ensures ColumnSum(frames, j) ==
            ColumnSum(frames[..|frames| - 1], j) + frames[|frames| - 1][j]
    decreases |frames|
  {
    if |frames| > 1 {
      assert frames[1..][..|frames| - 2] == frames[..|frames| - 1][1..];
      ColumnSumSnoc(frames[1..], j);
    }
  }

  function Zeros(width: nat): Vector {
    seq(width, _ => 0.0)
  }

  /** `torch.sum(hidden_states, dim=1)` for one utterance: frames accumulated in time
      order. */
  function SumFrames(frames: seq<Vector>, width: nat): (r: Vector)
    requires WellShaped(frames, width)
    ensures |r| == width
    ensures forall j :: 0 <= j < width ==> r[j] == ColumnSum(frames, j)
  {
    if |frames| == 0 then Zeros(width)
    else
      var n := |frames|;
      var acc := SumFrames(frames[..n - 1], width);
      var last := frames[n - 1];
      forall j | 0 <= j < width
        ensures acc[j] + last[j] == ColumnSum(frames, j)
      {
        ColumnSumSnoc(frames, j);
      }
      seq(width, j requires 0 <= j < width => acc[j] + last[j])
  }

  /** `v` is component `j` of some frame. */
  predicate Attained(frames: seq<Vector>, j: nat, v: real) {
    exists t :: 0 <= t < |frames| && j < |frames[t]| && frames[t][j] == v
  }

  /** `torch.max(hidden_states, dim=1)[0]` for one utterance. */
  function MaxFrames(frames: seq<Vector>, width: nat): (r: Vector)
    requires |frames| > 0 && WellShaped(frames, width)
    ensures |r| == width
    ensures forall t, j :: 0 <= t < |frames| && 0 <= j < width ==> frames[t][j] <= r[j]
    ensures forall j :: 0 <= j < width ==> Attained(frames, j, r[j])
  {
    var n := |frames|;
    if n == 1 then frames[0]
    else
      var acc := MaxFrames(frames[..n - 1], width);
      var last := frames[n - 1];
      var r := seq(width, j requires 0 <= j < width =>
                            if acc[j] >= last[j] then acc[j] else last[j]);
      assert forall t :: 0 <= t < n - 1 ==> frames[..n - 1][t] == frames[t];
      r
  }

  /** `torch.mean(hidden_states, dim=1)` for one utterance. */
  function MeanFrames(frames: seq<Vector>, width: nat): (r: Vector)
    requires |frames| > 0 && WellShaped(frames, width)
    ensures |r| == width
    ensures forall j :: 0 <= j < width ==> r[j] * (|frames| as real) == ColumnSum(frames, j)
  {
    var total := SumFrames(frames, width);
    seq(width, j requires 0 <= j < width => total[j] / (|frames| as real))
  }

  /** A batch of `time` frames of `width` components per utterance: the shape of a
      hidden-state tensor. */
  predicate HiddenShape(hidden: seq<seq<Vector>>, time: nat, width: nat) {
    forall b :: 0 <= b < |hidden| ==> |hidden[b]| == time && WellShaped(hidden[b], width)
  }

  /** Sum pooling of every utterance of a batch. */
  function SumBatch(hidden: seq<seq<Vector>>, time: nat, width: nat): (r: seq<Vector>)
    requires HiddenShape(hidden, time, width)
    ensures |r| == |hidden| && forall b :: 0 <= b < |hidden| ==> |r[b]| == width
    ensures forall b, j :: 0 <= b < |hidden| && 0 <= j < width ==>
              r[b][j] == ColumnSum(hidden[b], j)
  {
    seq(|hidden|, b requires 0 <= b < |hidden| => SumFrames(hidden[b], width))
  }

  /** Mean pooling of every utterance of a batch with a non-empty time axis. */
  function MeanBatch(hidden: seq<seq<Vector>>, time: nat, width: nat): (r: seq<Vector>)
    requires HiddenShape(hidden, time, width) && time > 0
    ensures |r| == |hidden| && forall b :: 0 <= b < |hidden| ==> |r[b]| == width
    ensures forall b, j :: 0 <= b < |hidden| && 0 <= j < width ==>
              r[b][j] * (time as real) == ColumnSum(hidden[b], j)
  {
    seq(|hidden|, b requires 0 <= b < |hidden| => MeanFrames(hidden[b], width))
  }

  /** Max pooling of every utterance of a batch with a non-empty time axis. */
  function MaxBatch(hidden: seq<seq<Vector>>, time: nat, width: nat): (r: seq<Vector>)
    requires HiddenShape(hidden, time, width) && time > 0
    ensures |r| == |hidden| && forall b :: 0 <= b < |hidden| ==> |r[b]| == width
    ensures forall b, t, j :: 0 <= b < |hidden| && 0 <= t < time && 0 <= j < width ==>
              hidden[b][t][j] <= r[b][j]
    ensures forall b, j :: 0 <= b < |hidden| && 0 <= j < width ==>
              Attained(hidden[b], j, r[b][j])
  {
    seq(|hidden|, b requires 0 <= b < |hidden| => MaxFrames(hidden[b], width))
  }

  /** `merged_strategy(hidden_states, mode)`: the mode is checked before any
      reduction, so an unknown mode fails whatever the shape. */
  function MergedStrategy(hidden: seq<seq<Vector>>, time: nat, width: nat, mode: string)
    : (r: Result<seq<Vector>, PoolError>)
    requires HiddenShape(hidden, time, width)
    ensures ParseMode(mode).Failure? <==> r == Failure(UnknownMode(mode))
    ensures r.Success? <==>
              mode == "sum" || (mode == "max" && time > 0) ||
              (mode == "mean" && (time > 0 || |hidden| == 0))
    ensures r.Success? ==>
              |r.value| == |hidden| && forall b :: 0 <= b < |hidden| ==> |r.value[b]| == width
    ensures r.Success? && mode == "sum" ==> r.value == SumBatch(hidden, time, width)
    ensures r.Success? && mode == "mean" && time > 0 ==> r.value == MeanBatch(hidden, time, width)
    ensures r.Success? && mode == "max" ==> r.value == MaxBatch(hidden, time, width)
  {
    match ParseMode(mode)
    case Failure(e) => Failure(e)
    case Success(Sum) => Success(SumBatch(hidden, time, width))
    case Success(Mean) =>
      if time > 0 then Success(MeanBatch(hidden, time, width))
      else if |hidden| == 0 then Success([])
      else Failure(UndefinedMean)
    case Success(Max) =>
      if time > 0 then Success(MaxBatch(hidden, time, width)) else Failure(EmptyReduction)
  }

  /** Pooling keeps the hidden width: the pooled vectors have the frames' width and
      the batch keeps its size, whichever reduction succeeds. */
  lemma PoolingKeepsWidth(hidden: seq<seq<Vector>>, time: nat, width: nat, m: PoolingMode)
    requires HiddenShape(hidden, time, width) && time > 0
    ensures MergedStrategy(hidden, time, width, ModeName(m)).Success?
    ensures forall b :: 0 <= b < |hidden| ==>
              |MergedStrategy(hidden, time, width, ModeName(m)).value[b]| == width
  {
  }

  /** Mean pooling is sum pooling divided by the number of frames. */
  lemma MeanIsScaledSum(hidden: seq<seq<Vector>>, time: nat, width: nat)
    requires HiddenShape(hidden, time, width) && time > 0
    ensures var mean := MergedStrategy(hidden, time, width, "mean");
            var sum := MergedStrategy(hidden, time, width, "sum");
            mean.Success? && sum.Success? &&
            forall b, j :: 0 <= b < |hidden| && 0 <= j < width ==>
              mean.value[b][j] * (time as real) == sum.value[b][j]
  {
  }

  /** A worked case: one utterance of three frames of width two. */
  lemma PoolingExample()
    ensures MergedStrategy([[[1.0, 2.0], [3.0, 4.0], [5.0, 6.0]]], 3, 2, "mean")
              == Success([[3.0, 4.0]])
    ensures MergedStrategy([[[1.0, 2.0], [3.0, 4.0], [5.0, 6.0]]], 3, 2, "sum")
              == Success([[9.0, 12.0]])
    ensures MergedStrategy([[[1.0, 2.0], [3.0, 4.0], [5.0, 6.0]]], 3, 2, "max")
              == Success([[5.0, 6.0]])
    ensures MergedStrategy([[[1.0, 2.0], [3.0, 4.0], [5.0, 6.0]]], 3, 2, "median")
              == Failure(UnknownMode("median"))
  {
    var frames: seq<Vector> := [[1.0, 2.0], [3.0, 4.0], [5.0, 6.0]];
    var hidden := [frames];
    assert ColumnSum(frames, 0) == 9.0 && ColumnSum(frames, 1) == 12.0;
    var sum := SumBatch(hidden, 3, 2);
    assert |sum| == 1 && |sum[0]| == 2 && sum[0][0] == 9.0 && sum[0][1] == 12.0;
    assert sum[0] == [9.0, 12.0];
    assert sum == [[9.0, 12.0]];
    assert MergedStrategy(hidden, 3, 2, "sum") == Success(sum);
    var mean := MeanBatch(hidden, 3, 2);
    assert mean[0][0] * 3.0 == 9.0 && mean[0][1] * 3.0 == 12.0;
    assert |mean| == 1 && |mean[0]| == 2 && mean[0][0] == 3.0 && mean[0][1] == 4.0;
    assert mean[0] == [3.0, 4.0];
    assert mean == [[3.0, 4.0]];
    assert MergedStrategy(hidden, 3, 2, "mean") == Success(mean);
    var max := MaxBatch(hidden, 3, 2);
    assert max[0][0] == 5.0 by {
      assert frames[2][0] <= max[0][0];
      var t :| 0 <= t < 3 && frames[t][0] == max[0][0];
    }
    assert max[0][1] == 6.0 by {
      assert frames[2][1] <= max[0][1];
      var t :| 0 <= t < 3 && frames[t][1] == max[0][1];
    }
    assert |max| == 1 && |max[0]| == 2;
    assert max[0] == [5.0, 6.0];
    assert max == [[5.0, 6.0]];
    assert MergedStrategy(hidden, 3, 2, "max") == Success(max);
  }
}
