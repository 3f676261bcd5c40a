/** The label half of `DataCollatorCTCWithPadding.__call__`: the element type of the
    stacked label tensor is chosen from the first label of the batch alone. Padding of
    the input values is done by the feature extractor and is not part of this model. */
module Collator {
  import opened Results
  import opened TensorTypes
  import opened LabelIndex

  /** A Python label value as it sits in a processed record. */
  datatype LabelValue =
    | IntValue(i: int)
    | BoolValue(b: bool)          // `bool` is a subclass of `int` in Python
    | FloatValue(x: real)
    | StrValue(s: string)
    | ListValue(items: seq<real>)  // a multi-hot or regression target vector

  /** `isinstance(value, int)`. */
  predicate IsPythonInt(v: LabelValue) {
    v.IntValue? || v.BoolValue?
  }

  datatype CollateError = EmptyBatch  // `label_features[0]` of an empty batch raises

  /** `torch.long if isinstance(label_features[0], int) else torch.float`. */
  function LabelDType(labels: seq<LabelValue>): (r: Result<DType, CollateError>)
    ensures r.Failure? <==> |labels| == 0
    ensures r == Success(Int64) <==> |labels| > 0 && IsPythonInt(labels[0])
    ensures r == Success(Float32) <==> |labels| > 0 && !IsPythonInt(labels[0])
  {
    if |labels| == 0 then Failure(EmptyBatch)
    else if IsPythonInt(labels[0]) then Success(Int64)
    else Success(Float32)
  }

  /** Only the first label is inspected: the rest of the batch never changes the
      choice. */
  lemma LabelDTypeReadsFirstOnly(labels: seq<LabelValue>, others: seq<LabelValue>)
    requires |labels| > 0
    ensures LabelDType([labels[0]] + others) == LabelDType(labels)
  {
  }

  /** The value `label_to_id` stores in a processed record. */
  function TargetValue(t: Target): LabelValue {
    match t
    case Id(i) => IntValue(i)
    case Raw(s) => StrValue(s)
  }

  /** The label values of a batch of raw labels after `label_to_id`. */
  function EncodedLabels(labels: seq<string>, v: seq<string>): (vs: seq<LabelValue>)
    ensures |vs| == |labels|
    ensures forall k :: 0 <= k < |labels| ==> vs[k] == TargetValue(LabelToId(labels[k], v))
    ensures |v| > 0 ==> forall k :: 0 <= k < |labels| ==> vs[k].IntValue?
    ensures |v| == 0 ==> forall k :: 0 <= k < |labels| ==> vs[k] == StrValue(labels[k])
  {
    var ts := TargetList(labels, v);
    seq(|ts|, k requires 0 <= k < |ts| => TargetValue(ts[k]))
  }

  /** With a non-empty vocabulary every encoded label is an `int` (known or the -1
      sentinel), so a batch collates to `torch.long`; with an empty vocabulary the raw
      strings pass through and the batch is declared `torch.float`. */
  lemma EncodedLabelsDType(labels: seq<string>, v: seq<string>)
    requires |labels| > 0
    ensures |v| > 0 ==> LabelDType(EncodedLabels(labels, v)) == Success(Int64)
    ensures |v| == 0 ==> LabelDType(EncodedLabels(labels, v)) == Success(Float32)
  {
  }
}
