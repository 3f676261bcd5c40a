/** The label indexer: the training labels, deduplicated and sorted, define the class
    ids; `label_to_id` maps a raw label to its id, and the two configuration maps
    `label2id` / `id2label` enumerate the same vocabulary. */
module LabelIndex {
  import opened StringOrder

  /** What `label_to_id` returns: an integer id (the position, or the sentinel -1), or
      the label itself when the vocabulary is empty. */
  datatype Target = Id(id: int) | Raw(text: string)

  const UnknownId: int := -1

  /** The column's distinct values in order of first occurrence (`Dataset.unique`). */
  function Unique(s: seq<string>): (r: seq<string>)
    ensures Distinct(r)
    ensures forall x :: x in r <==> x in s
    ensures |r| <= |s|
  {
    if |s| == 0 then []
    else
      var p := s[..|s| - 1];
      var last := s[|s| - 1];
      assert s == p + [last];
      var r := Unique(p);
      if last in r then r else r + [last]
  }

  /** `label_list = unique(labels); label_list.sort()`. */
  function Vocabulary(labels: seq<string>): (v: seq<string>)
    ensures StrictlySorted(v)
    ensures forall x :: x in v <==> x in labels
    ensures |v| <= |labels|
  {
    var u := Unique(labels);
    var v := Sort(u);
    DistinctPermutation(u, v);
    SortedDistinctIsStrict(v);
    assert forall x :: x in v <==> x in multiset(u);
    v
  }

  /** The vocabulary is the only ascending repetition-free listing of the training
      labels: it does not depend on the order in which the labels were seen. */
  lemma VocabularyIsCanonical(labels: seq<string>, w: seq<string>)
    requires StrictlySorted(w)
    requires forall x :: x in w <==> x in labels
    ensures Vocabulary(labels) == w
  {
    StrictlySortedUnique(Vocabulary(labels), w);
  }

  /** `list.index`: the position of the first occurrence. */
  function IndexOf(v: seq<string>, x: string): (i: nat)
    requires x in v
    ensures i < |v| && v[i] == x
    ensures forall j :: 0 <= j < i ==> v[j] != x
  {
    if v[0] == x then 0 else 1 + IndexOf(v[1..], x)
  }

  /** `label_to_id(label, label_list)`. */
  function LabelToId(lab: string, v: seq<string>): (r: Target)
    ensures |v| > 0 && lab in v ==>
              r.Id? && 0 <= r.id < |v| && v[r.id] == lab &&
              forall j :: 0 <= j < r.id ==> v[j] != lab
    ensures |v| > 0 && lab !in v ==> r == Id(UnknownId)
    ensures |v| == 0 ==> r == Raw(lab)
  {
    if |v| > 0 then
      if lab in v then Id(IndexOf(v, lab)) else Id(UnknownId)
    else Raw(lab)
  }

  /** The targets of a batch of labels, one per label, in order. */
  function TargetList(labels: seq<string>, v: seq<string>): (ts: seq<Target>)
    ensures |ts| == |labels|
    ensures forall k :: 0 <= k < |labels| ==> ts[k] == LabelToId(labels[k], v)
    ensures |v| > 0 ==>
              forall k :: 0 <= k < |labels| ==>
                ts[k].Id? && -1 <= ts[k].id < |v| &&
                (ts[k].id == UnknownId <==> labels[k] !in v)
    ensures |v| == 0 ==> forall k :: 0 <= k < |labels| ==> ts[k] == Raw(labels[k])
  {
    seq(|labels|, k requires 0 <= k < |labels| => LabelToId(labels[k], v))
  }

  /** In a repetition-free vocabulary the id of a known label is its only position,
      and an id is never the sentinel. */
  lemma LabelToIdDistinct(lab: string, v: seq<string>, i: int)
    requires Distinct(v) && 0 <= i < |v| && v[i] == lab
    ensures LabelToId(lab, v) == Id(i)
  {
  }

  /** Every training label receives a valid id of the vocabulary built from the
      training labels, and that id names the label back. */
  lemma TrainingLabelsKnown(labels: seq<string>, k: int)
    requires 0 <= k < |labels|
    ensures var v := Vocabulary(labels);
            var t := LabelToId(labels[k], v);
            t.Id? && 0 <= t.id < |v| && v[t.id] == labels[k]
  {
    assert labels[k] in labels;
  }

  /** `id2label = {i: label for i, label in enumerate(label_list)}`. */
  function Id2Label(v: seq<string>): (m: map<int, string>)
    ensures forall i :: i in m <==> 0 <= i < |v|
    ensures forall i :: 0 <= i < |v| ==> m[i] == v[i]
  {
    map i | 0 <= i < |v| :: v[i]
  }

  /** `label2id = {label: i for i, label in enumerate(label_list)}`: the
      comprehension inserts in enumeration order, so a repeated label keeps its last
      position. */
  function Label2Id(v: seq<string>): (m: map<string, int>)
    ensures forall x :: x in m <==> x in v
    ensures forall x :: x in m ==> 0 <= m[x] < |v| && v[m[x]] == x
    ensures forall x :: x in m ==> forall j :: m[x] < j < |v| ==> v[j] != x
  {
    if |v| == 0 then map[]
    else
      var p := v[..|v| - 1];
      assert v == p + [v[|v| - 1]];
      Label2Id(p)[v[|v| - 1] := |v| - 1]
  }

  /** Over a repetition-free vocabulary the two maps are mutual inverses on the ids
      `0 .. num_labels - 1` and on the labels. */
  lemma {:induction false} MapsAreInverse(v: seq<string>)
    requires Distinct(v)
    ensures forall i :: 0 <= i < |v| ==> Label2Id(v)[Id2Label(v)[i]] == i
    ensures forall x :: x in Label2Id(v) ==> Id2Label(v)[Label2Id(v)[x]] == x
  {
    var m := Label2Id(v);
    forall i | 0 <= i < |v|
      ensures m[Id2Label(v)[i]] == i
    {
      assert v[i] in v;
      var k := m[v[i]];
      assert v[k] == v[i];
    }
  }

  /** `label_to_id` and `label2id` agree on every label of the vocabulary. */
  lemma LabelToIdAgreesWithLabel2Id(v: seq<string>, x: string)
    requires Distinct(v) && x in Label2Id(v)
    ensures LabelToId(x, v) == Id(Label2Id(v)[x])
  {
  }

  /** A worked case: four training rows with a repeated emotion. */
  lemma VocabularyExample()
    ensures Vocabulary(["happy", "sad", "happy", "angry"]) == ["angry", "happy", "sad"]
    ensures LabelToId("sad", ["angry", "happy", "sad"]) == Id(2)
    ensures LabelToId("unknown", ["angry", "happy", "sad"]) == Id(UnknownId)
  {
    var labels := ["happy", "sad", "happy", "angry"];
    var w := ["angry", "happy", "sad"];
    assert Less("angry", "happy") && Less("happy", "sad") && Less("angry", "sad");
    assert forall x :: x in w <==> x in labels;
    VocabularyIsCanonical(labels, w);
  }
}
