/** The loss selector of `Wav2Vec2ForSpeechClassification.forward`: the problem type is
    inferred on the first call that carries labels, stored on the configuration, and
    reused by every later call; it decides which loss is computed. Loss values are
    not modelled, only which loss function is applied. */
module LossSelection {
  import opened Results
  import opened TensorTypes

  datatype ProblemType = Regression | SingleLabelClassification | MultiLabelClassification

  datatype LossKind = MeanSquaredError | CrossEntropy | BinaryCrossEntropyWithLogits

  /** The configuration name of each problem type. */
  function ProblemTypeName(p: ProblemType): string {
    match p
    case Regression => "regression"
    case SingleLabelClassification => "single_label_classification"
    case MultiLabelClassification => "multi_label_classification"
  }

  /** The inference applied when the configuration has no problem type. */
  function InferProblemType(numLabels: int, labels: DType): (p: ProblemType)
    ensures p == Regression <==> numLabels == 1
    ensures p == SingleLabelClassification <==> numLabels > 1 && IsClassIndexDType(labels)
    ensures p == MultiLabelClassification <==>
              numLabels < 1 || (numLabels > 1 && !IsClassIndexDType(labels))
  {
    if numLabels == 1 then Regression
    else if numLabels > 1 && IsClassIndexDType(labels) then SingleLabelClassification
    else MultiLabelClassification
  }

  /** The loss function each problem type applies. */
  function LossFor(p: ProblemType): (k: LossKind) {
    match p
    case Regression => MeanSquaredError
    case SingleLabelClassification => CrossEntropy
    case MultiLabelClassification => BinaryCrossEntropyWithLogits
  }

  /** The stored problem type after a call, and the loss that call computed. */
  datatype Step = Step(problemType: Option<ProblemType>, loss: Option<LossKind>)

  /** One forward pass. `stored` is `config.problem_type`; `labels` is the dtype of the
      label tensor, `None` when no labels are passed. */
  function Forward(stored: Option<ProblemType>, numLabels: int, labels: Option<DType>)
    : (r: Step)
    ensures labels.None? ==> r == Step(stored, None)
    ensures stored.Some? ==> r.problemType == stored
    ensures labels.Some? ==> r.problemType.Some? && r.loss.Some?
    ensures r.loss == Some(MeanSquaredError) <==>
              labels.Some? && (stored == Some(Regression) || (stored.None? && numLabels == 1))
    ensures r.loss == Some(CrossEntropy) <==>
              labels.Some? &&
              (stored == Some(SingleLabelClassification) ||
               (stored.None? && numLabels > 1 && IsClassIndexDType(labels.value)))
    ensures r.loss == Some(BinaryCrossEntropyWithLogits) <==>
              labels.Some? &&
              (stored == Some(MultiLabelClassification) ||
               (stored.None? &&
                (numLabels < 1 || (numLabels > 1 && !IsClassIndexDType(labels.value)))))
  {
    match labels
    case None => Step(stored, None)
    case Some(dtype) =>
      var p := if stored.Some? then stored.value else InferProblemType(numLabels, dtype);
      Step(Some(p), Some(LossFor(p)))
  }

  /** A sequence of forward passes on one model: the stored problem type threads
      through the calls, and each call's loss is recorded. */
  datatype Run = Run(problemType: Option<ProblemType>, losses: seq<Option<LossKind>>)

  function RunCalls(stored: Option<ProblemType>, numLabels: int, calls: seq<Option<DType>>)
    : (r: Run)
    ensures |r.losses| == |calls|
    ensures forall i :: 0 <= i < |calls| ==> (r.losses[i].None? <==> calls[i].None?)
    decreases |calls|
  {
    if |calls| == 0 then Run(stored, [])
    else
      var step := Forward(stored, numLabels, calls[0]);
      var rest := RunCalls(step.problemType, numLabels, calls[1..]);
      Run(rest.problemType, [step.loss] + rest.losses)
  }

  /** Once a problem type is stored it is never changed, and every labelled call
      uses its loss. */
  lemma {:induction false} StoredTypeIsKept(p: ProblemType, numLabels: int,
                                           calls: seq<Option<DType>>)
    ensures RunCalls(Some(p), numLabels, calls).problemType == Some(p)
    ensures forall i :: 0 <= i < |calls| && calls[i].Some? ==>
              RunCalls(Some(p), numLabels, calls).losses[i] == Some(LossFor(p))
    decreases |calls|
  {
    if |calls| > 0 {
      StoredTypeIsKept(p, numLabels, calls[1..]);
      var r := RunCalls(Some(p), numLabels, calls);
      forall i | 0 <= i < |calls| && calls[i].Some?
        ensures r.losses[i] == Some(LossFor(p))
      {
        if i > 0 {
          assert calls[1..][i - 1] == calls[i];
        }
      }
    }
  }

  /** Calls without labels leave an unset problem type unset. */
  lemma {:induction false} UnlabelledCallsInferNothing(numLabels: int, calls: seq<Option<DType>>)
    requires forall i :: 0 <= i < |calls| ==> calls[i].None?
    ensures RunCalls(None, numLabels, calls).problemType.None?
    decreases |calls|
  {
    if |calls| > 0 {
      UnlabelledCallsInferNothing(numLabels, calls[1..]);
    }
  }

  /** Starting unset, the first call with labels fixes the problem type from its
      label dtype; every later labelled call reuses it, whatever its own dtype. */
  lemma {:induction false} FirstLabelledCallDecides(numLabels: int, calls: seq<Option<DType>>,
                                                   k: nat)
    requires k < |calls| && calls[k].Some?
    requires forall i :: 0 <= i < k ==> calls[i].None?
    ensures var p := InferProblemType(numLabels, calls[k].value);
            var r := RunCalls(None, numLabels, calls);
            r.problemType == Some(p) &&
            forall i :: k <= i < |calls| && calls[i].Some? ==> r.losses[i] == Some(LossFor(p))
    decreases k
  {
    var p := InferProblemType(numLabels, calls[k].value);
    var r := RunCalls(None, numLabels, calls);
    if k == 0 {
      StoredTypeIsKept(p, numLabels, calls[1..]);
      forall i | 0 <= i < |calls| && calls[i].Some?
        ensures r.losses[i] == Some(LossFor(p))
      {
        if i > 0 {
          assert calls[1..][i - 1] == calls[i];
        }
      }
    } else {
      FirstLabelledCallDecides(numLabels, calls[1..], k - 1);
      forall i | k <= i < |calls| && calls[i].Some?
        ensures r.losses[i] == Some(LossFor(p))
      {
        assert calls[1..][i - 1] == calls[i];
      }
    }
  }
}
