# Emotion recognition with Wav2Vec2 — decision rules, modelled in Dafny

The repository fine-tunes a pretrained Wav2Vec2 speech encoder to classify the
emotion of spoken utterances. Almost all of its work is done by torch, torchaudio and
HuggingFace; the script's own logic is a handful of small decision rules, and those are
modelled here as pure functions over plain data:

- **Label indexing** (`label_index.dfy`, `string_order.dfy`): the vocabulary is the
  training labels made unique and sorted with Python's string order; `label_to_id`
  returns the first position of a label, the sentinel `-1` for an unknown label, or the
  label itself when the vocabulary is empty; `label2id` / `id2label` enumerate the
  vocabulary.
- **Pooling** (`pooling.dfy`): `merged_strategy` reduces each utterance's time-major
  frames to one vector by `mean`, `sum` or `max`; any other mode is an error. Values
  are exact reals.
- **Loss selection** (`loss_selection.dfy`, `tensor_types.dfy`): the forward pass
  infers the problem type once from `num_labels` and the label dtype, stores it on the
  configuration, and reuses it; the problem type decides which loss is applied.
- **Collator label dtype** (`collator.dfy`): labels are stacked as `torch.long` when the
  first label is a Python `int`, otherwise as `torch.float`.
- **Accuracy** (`metrics.dfy`): per-row argmax of the logits, then the mean of the
  comparison with the gold ids.
- `pipeline.dfy` connects them: what the script selects for a training set with one or
  with several emotions.

Shared `Option`/`Result` types are in `results.dfy`.

Behaviour of the code worth noting:
- `label_to_id` does not always map unknown labels to `-1`: with an empty vocabulary it
  returns the label string unchanged (`LabelIndex.LabelToId`).
- The problem type is multi-label not only for several classes with non-integer labels
  but also for `num_labels <= 0`. Integer labels of any width other than `torch.long`
  and `torch.int` also give multi-label (`LossSelection.InferProblemType`).
- The collator does not pick the dtype from the problem type. It looks only at the
  first label of the batch, and a `bool` counts as an `int` (`Collator.LabelDType`).

## Model

| member | source | states |
|---|---|---|
| StringOrder.Insert | emotion_recognition_wav2vec2.py:49 | inserting into a sorted list keeps it sorted and adds exactly one occurrence of the element |
| StringOrder.Sort | emotion_recognition_wav2vec2.py:49 | `list.sort()` on strings yields a permutation of its input in non-decreasing Python string order |
| StringOrder.StrictlySortedUnique | emotion_recognition_wav2vec2.py:48-49 | two ascending repetition-free lists with the same elements are equal, so the sorted vocabulary is determined by the set of labels |
| LabelIndex.Unique | emotion_recognition_wav2vec2.py:48 | the unique values of the label column: no repetitions, exactly the labels that occur, never longer than the column |
| LabelIndex.Vocabulary | emotion_recognition_wav2vec2.py:48-50 | the vocabulary contains each distinct training label exactly once, in strictly ascending order, and nothing else |
| LabelIndex.VocabularyIsCanonical | emotion_recognition_wav2vec2.py:48-49 | any ascending repetition-free listing of the training labels is the vocabulary: it does not depend on the order of the training rows |
| LabelIndex.VocabularyExample | emotion_recognition_wav2vec2.py:48-49 | the rows happy, sad, happy, angry give the vocabulary angry, happy, sad; `sad` gets id 2 and an unseen label gets -1 |
| LabelIndex.IndexOf | emotion_recognition_wav2vec2.py:99 | `list.index` returns the first position holding the label |
| LabelIndex.LabelToId | emotion_recognition_wav2vec2.py:97-100 | a known label gets its first position in the vocabulary, an unknown label gets -1 when the vocabulary is non-empty, and the label is returned unchanged when the vocabulary is empty |
| LabelIndex.TargetList | emotion_recognition_wav2vec2.py:154 | one target per raw label, in order; with a non-empty vocabulary every target is an id in `-1 .. num_labels - 1`, and it is -1 exactly for a label outside the vocabulary; with an empty vocabulary every label passes through unchanged |
| LabelIndex.LabelToIdDistinct | emotion_recognition_wav2vec2.py:97-100 | in a repetition-free vocabulary the id of a label is its only position |
| LabelIndex.TrainingLabelsKnown | emotion_recognition_wav2vec2.py:154 | every training label gets a valid id of the training vocabulary, and that id names the label back |
| LabelIndex.Label2Id | emotion_recognition_wav2vec2.py:67 | `label2id` is defined exactly on the vocabulary's labels, maps each to a position holding it, and a repeated label keeps its last position |
| LabelIndex.MapsAreInverse | emotion_recognition_wav2vec2.py:67-68 | over a repetition-free vocabulary `label2id` and `id2label` are mutual inverses |
| LabelIndex.LabelToIdAgreesWithLabel2Id | emotion_recognition_wav2vec2.py:97-99 | `label_to_id` and `label2id` give the same id for every vocabulary label |
| Pooling.ParseMode | emotion_recognition_wav2vec2.py:258-266 | exactly `mean`, `sum` and `max` are accepted, each recognised by its own name; any other mode is the undefined-pooling error |
| Pooling.ParseModeName | emotion_recognition_wav2vec2.py:258-263 | each mode's name selects that mode |
| Pooling.SumFrames | emotion_recognition_wav2vec2.py:261 | sum pooling keeps the frame width and each component is the column total over the time axis |
| Pooling.MaxFrames | emotion_recognition_wav2vec2.py:263 | max pooling keeps the frame width, each component bounds every frame's component and equals some frame's component |
| Pooling.MeanFrames | emotion_recognition_wav2vec2.py:259 | mean pooling keeps the frame width and each component times the number of frames is the column total |
| Pooling.SumBatch | emotion_recognition_wav2vec2.py:261 | `torch.sum(hidden_states, dim=1)`: one column-total vector per utterance |
| Pooling.MeanBatch | emotion_recognition_wav2vec2.py:259 | `torch.mean(hidden_states, dim=1)`: one vector per utterance whose components times the frame count are the column totals |
| Pooling.MaxBatch | emotion_recognition_wav2vec2.py:263 | `torch.max(hidden_states, dim=1)[0]`: one vector per utterance of attained column maxima |
| Pooling.MergedStrategy | emotion_recognition_wav2vec2.py:253-268 | an unknown mode fails before any reduction; otherwise the result has one vector of the hidden width per utterance, computed by the named reduction; max over an empty time axis raises and mean over it is undefined |
| Pooling.PoolingKeepsWidth | emotion_recognition_wav2vec2.py:258-268 | every mode succeeds on a non-empty time axis and keeps batch size and width |
| Pooling.MeanIsScaledSum | emotion_recognition_wav2vec2.py:259-261 | mean pooling times the frame count equals sum pooling |
| Pooling.PoolingExample | emotion_recognition_wav2vec2.py:258-266 | the frames [1,2], [3,4], [5,6] pool to [3,4] by mean, [9,12] by sum and [5,6] by max, and the mode `median` is rejected |
| LossSelection.InferProblemType | emotion_recognition_wav2vec2.py:293-299 | one label gives regression; several labels with `torch.long`/`torch.int` labels give single-label classification; every other case, `num_labels <= 0` included, gives multi-label classification |
| LossSelection.Forward | emotion_recognition_wav2vec2.py:291-309 | without labels nothing is stored and no loss is computed; a stored problem type is kept; with labels each loss kind is chosen exactly when the stored or freshly inferred problem type calls for it |
| LossSelection.RunCalls | emotion_recognition_wav2vec2.py:291-309 | over a sequence of forward passes a call computes a loss exactly when it carries labels |
| LossSelection.StoredTypeIsKept | emotion_recognition_wav2vec2.py:293-309 | once set, the problem type never changes and every labelled call applies its loss |
| LossSelection.UnlabelledCallsInferNothing | emotion_recognition_wav2vec2.py:291-293 | calls without labels never set the problem type |
| LossSelection.FirstLabelledCallDecides | emotion_recognition_wav2vec2.py:293-309 | the first labelled call's dtype fixes the problem type for the rest of the run, whatever later calls' dtypes are |
| Collator.LabelDType | emotion_recognition_wav2vec2.py:389 | an empty batch fails; otherwise the dtype is `torch.long` exactly when the first label is a Python `int` (a `bool` included) and `torch.float` otherwise |
| Collator.LabelDTypeReadsFirstOnly | emotion_recognition_wav2vec2.py:389 | the labels after the first never change the dtype |
| Collator.EncodedLabels | emotion_recognition_wav2vec2.py:154-157 | with a non-empty vocabulary every stored label is a Python `int`; with an empty vocabulary every stored label is the raw `str` |
| Collator.EncodedLabelsDType | emotion_recognition_wav2vec2.py:389 | labels encoded against a non-empty vocabulary are given the dtype `torch.long`; against an empty one they are given `torch.float` (the conversion at line 399 then fails on the strings) |
| Metrics.Logits | emotion_recognition_wav2vec2.py:414 | a tuple of predictions contributes its first element, an empty tuple fails, a plain array is used as is |
| Metrics.ArgMax | emotion_recognition_wav2vec2.py:415 | the result indexes a maximal logit of the row and every earlier logit is strictly smaller (the first maximum) |
| Metrics.ArgMaxRows | emotion_recognition_wav2vec2.py:415 | on a two-dimensional array, argmax along the rows fails exactly when the array has no columns (even with no rows), otherwise gives one first-maximum index per row |
| Metrics.Matches | emotion_recognition_wav2vec2.py:420 | the agreement count is at most the length, equals it exactly when all positions agree, and is zero exactly when none do |
| Metrics.Broadcast | emotion_recognition_wav2vec2.py:420 | the comparison succeeds exactly for equal lengths or a length-one side, which is repeated against the other |
| Metrics.Fraction | emotion_recognition_wav2vec2.py:420 | the mean of the comparison lies in [0, 1], is 1 exactly when all agree and 0 exactly when none do |
| Metrics.Accuracy | emotion_recognition_wav2vec2.py:413-420 | every accuracy the metric reports lies in [0, 1] |
| Metrics.AccuracyIsFractionCorrect | emotion_recognition_wav2vec2.py:413-420 | for one gold id per non-empty row, accuracy is the fraction of rows whose argmax is the gold id: 1 exactly when all are right, 0 exactly when all are wrong |
| Pipeline.ManyEmotionsSelectCrossEntropy | emotion_recognition_wav2vec2.py:296-297 | with two distinct training emotions, encoded batches collate to `torch.long` and the first labelled pass selects single-label classification with cross-entropy |
| Pipeline.OneEmotionSelectsRegression | emotion_recognition_wav2vec2.py:294-295 | with a single training emotion, `num_labels` is 1 and the first labelled pass selects regression with mean-squared error |

## Left out

- Audio decoding and resampling (`speech_file_to_array_fn`): torchaudio calls on files and floating-point signal processing.
- The on-disk feature cache in `ppf`: file-existence checks and `np.load`/`np.save` are I/O.
- Feature extraction and padding of input values (`processor(...)`, `processor.pad(...)`): external HuggingFace code. The collator is modelled only for its label dtype choice.
- `nested_array_catcher`: its module is not part of this model.
- The classification head, the Wav2Vec2 encoder and the values of the MSE, cross-entropy and binary cross-entropy losses: floating-point linear algebra, dropout and tanh. Only the loss kind is modelled.
- `CTCTrainer.training_step`, `TrainingArguments` and `Trainer`: mixed precision, backward passes and the external training loop.
- The regression branch of `compute_metrics` (`is_regression` is the constant `False`, and the MSE is float arithmetic).
- Commented-out evaluation and prediction code: dead code.
- LossSelection.Forward: the stored problem type is one of the three known names or unset, since the HuggingFace configuration accepts only those; a different stored string, for which no loss would be computed, is not modelled.
- Pooling.MergedStrategy: `torch.mean` over an empty time axis yields NaN rather than raising; the model returns `UndefinedMean` instead of a NaN vector. Float rounding is not modelled: frames are exact reals.
- Metrics.ArgMax: logits are exact reals, so a row holding NaN (for which `np.argmax` returns the first NaN's index) cannot be expressed; this matters because training runs in half precision.
- Metrics.Accuracy: the comparison is averaged as an exact real, not as `float32`; the mean of an empty comparison (NaN in numpy) is the error `EmptyMean`.
- Collator.LabelDType: converting the labels with `torch.tensor` (which fails for strings) is not modelled; only the dtype choice is.
