/** How the components meet in the training script: labels are encoded against the
    training vocabulary, collated, and the first forward pass with labels fixes the
    problem type from the collated dtype and the vocabulary size (`num_labels`). */
module Pipeline {
  import opened Results
  import opened TensorTypes
  import opened StringOrder
  import opened LabelIndex
  import opened Collator
  import opened LossSelection

  /** With at least two distinct training labels, every labelled batch collates to
      `torch.long` and the first forward pass selects single-label classification,
      i.e. cross-entropy loss. */
  lemma ManyEmotionsSelectCrossEntropy(train: seq<string>, batch: seq<string>, i: int, j: int)
    requires 0 <= i < |train| && 0 <= j < |train| && train[i] != train[j]
    requires |batch| > 0
    ensures var v := Vocabulary(train);
            var d := LabelDType(EncodedLabels(batch, v));
            d == Success(Int64) &&
            Forward(None, |v|, Some(d.value)) ==
              Step(Some(SingleLabelClassification), Some(CrossEntropy))
  {
    var v := Vocabulary(train);
    assert train[i] in train && train[j] in train;
    assert |v| > 1 by {
      var a :| 0 <= a < |v| && v[a] == train[i];
      var b :| 0 <= b < |v| && v[b] == train[j];
      assert a != b;
    }
    EncodedLabelsDType(batch, v);
  }

  /** With a single distinct training label, `num_labels` is 1 and the first labelled
      forward pass selects regression (mean-squared error), although the collated
      labels are class ids. */
  lemma OneEmotionSelectsRegression(train: seq<string>, batch: seq<string>)
    requires |train| > 0 && forall k :: 0 <= k < |train| ==> train[k] == train[0]
    requires |batch| > 0
    ensures var v := Vocabulary(train);
            var d := LabelDType(EncodedLabels(batch, v));
            |v| == 1 && d == Success(Int64) &&
            Forward(None, |v|, Some(d.value)) == Step(Some(Regression), Some(MeanSquaredError))
  {
    var v := Vocabulary(train);
    assert train[0] in train;
    assert |v| == 1 by {
      assert v[0] in train;
      if |v| > 1 {
        assert v[1] in train;
        StrictlySortedIsDistinct(v);
      }
    }
    EncodedLabelsDType(batch, v);
  }
}
