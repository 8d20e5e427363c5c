/**
 Label re-indexing across source taxonomies: `sample_deepsig` keeps four
 modulation classes of the 24-class DeepSig dataset and re-encodes them as
 4-wide one-hot vectors; the root `merge_hdfset` drops five DeepSig classes,
 relabels the rest as one "other" class, and widens the labels of every
 other source by one zero column so both fit one 9-wide label dataset.
 */
module Relabel {
  import opened Records

  /** The class order of the DeepSig labels, as the script lists it. */
  const Classes: seq<string> :=
    ["OOK", "4ASK", "8ASK", "BPSK", "QPSK", "8PSK", "16PSK", "32PSK", "16APSK", "32APSK", "64APSK",
     "128APSK", "16QAM", "32QAM", "64QAM", "128QAM", "256QAM", "AM-SSB-WC", "AM-SSB-SC", "AM-DSB-WC",
     "AM-DSB-SC", "FM", "GMSK", "OQPSK"]

  /** The four modulations sample_deepsig keeps, in the order of their new labels. */
  const VierMods: seq<string> := ["BPSK", "QPSK", "16QAM", "64QAM"]

  /** The nested loop building label_list: for each wanted name in order,
      every position of `classes` holding that name. */
  function LabelList(wanted: seq<string>, classes: seq<string>): seq<nat> {
    if |wanted| == 0 then []
    else
      var w := wanted[|wanted| - 1];
      LabelList(wanted[..|wanted| - 1], classes) + Positions(classes, w)
  }

  /** label_list holds exactly the class positions whose name is wanted:
      every item is such a position, and every such position is listed. */
  lemma {:induction false} LabelListMembers(wanted: seq<string>, classes: seq<string>)
    ensures var r := LabelList(wanted, classes);
            && (forall k | 0 <= k < |r| :: r[k] < |classes| && classes[r[k]] in wanted)
            && (forall p | 0 <= p < |classes| && classes[p] in wanted :: p in r)
  {
    if |wanted| > 0 {
      var front, w := wanted[..|wanted| - 1], wanted[|wanted| - 1];
      assert wanted == front + [w];
      LabelListMembers(front, classes);
      var ps := Positions(classes, w);
      assert forall k | 0 <= k < |ps| :: EqualTo(w)(classes[ps[k]]);
      forall p | 0 <= p < |classes| && classes[p] == w
        ensures p in ps
      {
        assert EqualTo(w)(classes[p]);
      }
    }
  }

  /** A value that occurs exactly once is found at exactly its position. */
  lemma UniquePosition<T>(xs: seq<T>, w: T, p: nat)
    requires p < |xs| && xs[p] == w
    requires forall j | 0 <= j < |xs| && j != p :: xs[j] != w
    ensures Positions(xs, w) == [p]
  {
    var r := IndicesWhere(xs, EqualTo(w));
    forall k | 0 <= k < |r|
      ensures r[k] == p
    {
      assert EqualTo(w)(xs[r[k]]);
    }
    assert p in r;
    IncreasingConstant(r, p);
  }

  /** A strictly increasing list whose items are all equal has at most one. */
  lemma IncreasingConstant(r: seq<nat>, p: nat)
    requires forall k, m | 0 <= k < m < |r| :: r[k] < r[m]
    requires forall k | 0 <= k < |r| :: r[k] == p
    ensures |r| <= 1
  {
    if |r| > 0 {
      IncreasingSpread(r);
    }
  }

  /** In a strictly increasing list of naturals the last item exceeds the
      first by at least the length minus one. */
  lemma {:induction false} IncreasingSpread(r: seq<nat>)
    requires |r| > 0
    requires forall k, m | 0 <= k < m < |r| :: r[k] < r[m]
    ensures r[|r| - 1] >= r[0] + |r| - 1
  {
    if |r| > 1 {
      IncreasingSpread(r[..|r| - 1]);
      assert r[|r| - 2] < r[|r| - 1];
    }
  }

  /** label_list of sample_deepsig: the positions of BPSK, QPSK, 16QAM and
      64QAM among the DeepSig classes, in that order. */
  const DeepsigLabelList: seq<int> := [3, 4, 12, 14]

  /** The nested loop over vier_mods and classes builds exactly label_list. */
  lemma LabelListValue()
    ensures LabelList(VierMods, Classes) == DeepsigLabelList
  {
    ClassPosition("BPSK", 3);
    ClassPosition("QPSK", 4);
    ClassPosition("16QAM", 12);
    ClassPosition("64QAM", 14);
    LabelListOfUnique(VierMods, Classes, DeepsigLabelList);
  }

  /** When every wanted name sits at exactly one known position, label_list
      is the list of those positions. */
  lemma {:induction false} LabelListOfUnique(wanted: seq<string>, classes: seq<string>, ps: seq<nat>)
    requires |ps| == |wanted|
    requires forall k | 0 <= k < |wanted| :: Positions(classes, wanted[k]) == [ps[k]]
    ensures LabelList(wanted, classes) == ps
  {
    if |wanted| > 0 {
      var n := |wanted|;
      var front, psFront := wanted[..n - 1], ps[..n - 1];
      assert forall k | 0 <= k < n - 1 :: front[k] == wanted[k] && psFront[k] == ps[k];
      LabelListOfUnique(front, classes, psFront);
      calc {
        LabelList(wanted, classes);
        LabelList(front, classes) + Positions(classes, wanted[n - 1]);
        psFront + [ps[n - 1]];
        ps;
      }
    }
  }

  /** Each of the four kept names occurs once among the classes. */
  lemma ClassPosition(w: string, p: nat)
    requires (w, p) in {("BPSK", 3), ("QPSK", 4), ("16QAM", 12), ("64QAM", 14)}
    ensures Positions(Classes, w) == [p]
  {
    UniquePosition(Classes, w, p);
  }

  /** one_hot(id): a 4-wide zero vector with a 1 written at `x[id]`
      (a negative id counts from the end, as Python indexing does). */
  function OneHot(id: int): (x: Label)
    requires -4 <= id < 4
    ensures IsOneHot(x, 4, if id < 0 then id + 4 else id)
  {
    var p := if id < 0 then id + 4 else id;
    seq(4, j => if j == p then 1.0 else 0.0)
  }

  /** Every position of xs holding w, in order. */
  function Positions<T(==)>(xs: seq<T>, w: T): seq<nat> {
    IndicesWhere(xs, EqualTo(w))
  }

  /** The test `x == key` of the loops above, as a value. */
  function EqualTo<T(==)>(key: T): T -> bool {
    x => x == key
  }

  /** No value occurs twice. */
  predicate Distinct(xs: seq<int>) {
    forall j, k | 0 <= j < k < |xs| :: xs[j] != xs[k]
  }

  /** The positions of a class index in a list without repeats: its one
      position if it occurs, none otherwise. */
  lemma KeptPosition(key: int, labelList: seq<int>)
    requires Distinct(labelList)
    ensures key in labelList ==>
              && |IndicesWhere(labelList, EqualTo(key))| == 1
              && forall l | 0 <= l < |labelList| && labelList[l] == key :: IndicesWhere(labelList, EqualTo(key))[0] == l
    ensures key !in labelList ==> IndicesWhere(labelList, EqualTo(key)) == []
  {
    if key in labelList {
      var p :| 0 <= p < |labelList| && labelList[p] == key;
      UniquePosition<int>(labelList, key, p);
    } else {
      AbsentPosition(key, labelList);
    }
  }

  /** A class index that is not listed has no position. */
  lemma AbsentPosition(key: int, labelList: seq<int>)
    requires key !in labelList
    ensures IndicesWhere(labelList, EqualTo(key)) == []
  {
  }

  /** The inner loop for one kept label: `one_hot(l)` for every l whose
      label_list entry equals the label's class index. With a repeat-free
      label_list that is one vector for a listed class and none otherwise. */
  function Remap(key: int, labelList: seq<int>): (r: seq<Label>)
    requires |labelList| <= 4 && Distinct(labelList)
    ensures key in labelList ==>
              |r| == 1 && forall l | 0 <= l < |labelList| && labelList[l] == key :: r[0] == OneHot(l)
    ensures key !in labelList ==> r == []
  {
    KeptPosition(key, labelList);
    var ps := IndicesWhere(labelList, EqualTo(key));
    seq(|ps|, m requires 0 <= m < |ps| => OneHot(ps[m]))
  }

  /** A class index sample_deepsig keeps: one listed in label_list. */
  predicate Kept(key: int) {
    key in DeepsigLabelList
  }

  /** idx_class of sample_deepsig: the records whose class index is one of
      the four kept classes, in their original order. */
  function KeptIndices(labels: seq<Label>, labelIdx: Label -> int): (idx: seq<nat>)
    ensures forall k | 0 <= k < |idx| :: idx[k] < |labels| && Kept(labelIdx(labels[idx[k]]))
    ensures forall i | 0 <= i < |labels| :: i in idx <==> Kept(labelIdx(labels[i]))
    ensures forall k, m | 0 <= k < m < |idx| :: idx[k] < idx[m]
  {
    var keys := seq(|labels|, i requires 0 <= i < |labels| => labelIdx(labels[i]));
    IndicesWhere(keys, k => Kept(k))
  }

  /** The position l of a kept class index in label_list: `label_list[l] == key`. */
  function Position(key: int): (l: nat)
    requires Kept(key)
    ensures l < |DeepsigLabelList| && DeepsigLabelList[l] == key
  {
    if key == 3 then 0 else if key == 4 then 1 else if key == 12 then 2 else 3
  }

  /** The relabelling loop of sample_deepsig over the kept records' class
      indices: each record gets the one-hot vector of its class's position
      in label_list. */
  function RemapAll(keys: seq<int>, labelList: seq<int>): (ls: seq<Label>)
    requires |labelList| <= 4 && Distinct(labelList)
    requires forall j | 0 <= j < |keys| :: keys[j] in labelList
    ensures |ls| == |keys|
    ensures forall j, l | 0 <= j < |keys| && 0 <= l < |labelList| && labelList[l] == keys[j] :: ls[j] == OneHot(l)
  {
    var pieces := seq(|keys|, j requires 0 <= j < |keys| => Remap(keys[j], labelList));
    FlattenSingletons(pieces);
    Flatten(pieces)
  }

  /** With label_list itself, record j's vector is one-hot at its class's position. */
  lemma RemapAllPositions(keys: seq<int>)
    requires forall j | 0 <= j < |keys| :: keys[j] in DeepsigLabelList
    ensures forall j | 0 <= j < |keys| :: RemapAll(keys, DeepsigLabelList)[j] == OneHot(Position(keys[j]))
  {
    var ls := RemapAll(keys, DeepsigLabelList);
    forall j | 0 <= j < |keys|
      ensures ls[j] == OneHot(Position(keys[j]))
    {
      var l := Position(keys[j]);
      assert DeepsigLabelList[l] == keys[j];
    }
  }

  /** Some record is kept exactly when some record's class is listed. */
  lemma KeptIndicesNonEmpty(labels: seq<Label>, labelIdx: Label -> int)
    ensures |KeptIndices(labels, labelIdx)| > 0 <==>
              exists i | 0 <= i < |labels| :: Kept(labelIdx(labels[i]))
  {
    var idx := KeptIndices(labels, labelIdx);
    if |idx| > 0 {
      assert Kept(labelIdx(labels[idx[0]]));
    }
  }

  /** The arrays sample_deepsig writes: iq, labels and snrs filtered by the
      same index list; each kept label becomes the one-hot vector of its
      class's position in label_list; SNRs are cast to int8. */
  function DeepsigRows(src: Store, labelIdx: Label -> int): (b: Store)
    requires src.Aligned()
    ensures var idx := KeptIndices(src.labels, labelIdx);
            && b.Aligned()
            && |b.iq| == |idx|
            && forall k | 0 <= k < |idx| ::
                 && b.iq[k] == src.iq[idx[k]]
                 && b.snrs[k] == ToInt8(src.snrs[idx[k]])
                 && b.labels[k] == OneHot(Position(labelIdx(src.labels[idx[k]])))
  {
    var idx := KeptIndices(src.labels, labelIdx);
    var keys := seq(|idx|, k requires 0 <= k < |idx| => labelIdx(src.labels[idx[k]]));
    RemapAllPositions(keys);
    Store(Select(src.iq, idx), RemapAll(keys, DeepsigLabelList),
          seq(|idx|, k requires 0 <= k < |idx| => ToInt8(src.snrs[idx[k]])))
  }

  /** sample_deepsig on its one source file. When no record is kept the
      rebuilt label array has no second axis and the script fails reading
      its width. */
  function SampleDeepsig(src: Store, labelIdx: Label -> int): (r: Result<Store>)
    requires src.Aligned()
    ensures r.Ok? <==> exists i | 0 <= i < |src.labels| :: Kept(labelIdx(src.labels[i]))
    ensures r.Err? ==> r.error == LabelArrayNotTwoD
    ensures r.Ok? ==> r.value == DeepsigRows(src, labelIdx) && |r.value.iq| > 0
  {
    var rows := DeepsigRows(src, labelIdx);
    KeptIndicesNonEmpty(src.labels, labelIdx);
    if |rows.labels| == 0 then Err(LabelArrayNotTwoD) else Ok(rows)
  }

  /** The file loop of sample_deepsig. row1 is never advanced, so every
      source that gets past preprocessing reaches `create_dataset`: the
      first one creates and fills the store, any later one fails because the
      datasets exist. The script lists a single source file. */
  function SampleDeepsigFiles(out: Option<Store>, files: seq<Store>, labelIdx: Label -> int)
    : (r: Run<Option<Store>>)
    requires forall j | 0 <= j < |files| :: files[j].Aligned()
    ensures r.failure.None? ==> |files| == 0 || (|files| == 1 && out.None?)
    ensures |files| == 1 && out.None? ==>
              && (r.failure.None? <==> SampleDeepsig(files[0], labelIdx).Ok?)
              && (r.failure.None? ==> r.state == Some(SampleDeepsig(files[0], labelIdx).value))
              && (r.failure.Some? ==> r.state.None? && r.failure == Some(LabelArrayNotTwoD))
    ensures out.Some? && |files| > 0 && SampleDeepsig(files[0], labelIdx).Ok? ==>
              r == Run(out, Some(DatasetExists))
    ensures out.None? && |files| >= 2 && SampleDeepsig(files[0], labelIdx).Ok?
            && SampleDeepsig(files[1], labelIdx).Ok? ==>
              r == Run(Some(SampleDeepsig(files[0], labelIdx).value), Some(DatasetExists))
    decreases |files|
  {
    if |files| == 0 then Run(out, None)
    else
      match SampleDeepsig(files[0], labelIdx)
      case Err(e) => Run(out, Some(e))
      case Ok(b) =>
        if out.Some? then Run(out, Some(DatasetExists))
        else SampleDeepsigFiles(Some(b), files[1..], labelIdx)
  }

  // ---------------------------------------------------------------------------
  // Root merge_filtered.py: merge_hdfset preprocessing of one source

  /** The DeepSig class indices the merge drops. */
  const ModsSkip: seq<int> := [8, 9, 18, 19, 23]

  /** The fixed label every surviving DeepSig record gets: class 8 of 9. */
  const OtherLabel: Label := [0.0, 0.0, 0.0, 0.0, 0.0, 0.0, 0.0, 0.0, 1.0]

  /** Python's `path[-4:] == "hdf5"`. */
  predicate IsHdf5(path: string)
    ensures IsHdf5(path) <==> |path| >= 4 && path[|path| - 4..] == "hdf5"
  {
    (if |path| >= 4 then path[|path| - 4..] else path) == "hdf5"
  }

  /** idx_class of merge_hdfset: the records whose class index is not skipped. */
  function SurvivingIndices(labels: seq<Label>, labelIdx: Label -> int): (idx: seq<nat>)
    ensures forall k | 0 <= k < |idx| :: idx[k] < |labels| && labelIdx(labels[idx[k]]) !in ModsSkip
    ensures forall i | 0 <= i < |labels| :: i in idx <==> labelIdx(labels[i]) !in ModsSkip
    ensures forall k, m | 0 <= k < m < |idx| :: idx[k] < idx[m]
  {
    var keys := seq(|labels|, i requires 0 <= i < |labels| => labelIdx(labels[i]));
    IndicesWhere(keys, k => k !in ModsSkip)
  }

  /** The `.hdf5` (DeepSig) branch of the root merge_hdfset: the records of
      non-skipped classes, relabelled to OtherLabel, iq scaled, SNRs cast to
      int8. */
  function OtherRows(src: Store, labelIdx: Label -> int, scale: IqRecord -> IqRecord): (b: Store)
    requires src.Aligned()
    ensures b.Aligned()
    ensures |b.iq| == |SurvivingIndices(src.labels, labelIdx)|
    ensures forall k | 0 <= k < |b.iq| ::
              var idx := SurvivingIndices(src.labels, labelIdx);
              && b.iq[k] == scale(src.iq[idx[k]])
              && b.labels[k] == OtherLabel
              && b.snrs[k] == ToInt8(src.snrs[idx[k]])
  {
    var idx := SurvivingIndices(src.labels, labelIdx);
    Store(seq(|idx|, k requires 0 <= k < |idx| => scale(src.iq[idx[k]])),
          seq(|idx|, _ => OtherLabel),
          seq(|idx|, k requires 0 <= k < |idx| => ToInt8(src.snrs[idx[k]])))
  }

  /** The branch for any other source: every record kept, iq scaled, and a 0
      appended to each label. */
  function WidenedRows(src: Store, scale: IqRecord -> IqRecord): (b: Store)
    requires src.Aligned()
    ensures b.Aligned() && |b.iq| == |src.iq|
    ensures b.snrs == src.snrs
    ensures forall k | 0 <= k < |src.iq| ::
              && b.iq[k] == scale(src.iq[k])
              && b.labels[k] == src.labels[k] + [0.0]
  {
    Store(seq(|src.iq|, k requires 0 <= k < |src.iq| => scale(src.iq[k])),
          seq(|src.labels|, k requires 0 <= k < |src.labels| => src.labels[k] + [0.0]),
          src.snrs)
  }

  /** What one source contributes to the root merge_hdfset: OtherRows for a
      `.hdf5` (DeepSig) file, WidenedRows for any other. In both cases every
      iq record is passed through preprocessing.scale. An empty rebuilt label
      array has no second axis, which fails the script. */
  function UnBatch(path: string, src: Store, labelIdx: Label -> int, scale: IqRecord -> IqRecord)
    : (r: Result<Store>)
    requires src.Aligned()
    ensures r.Err? ==> r.error == LabelArrayNotTwoD
    ensures r.Ok? ==> |r.value.iq| > 0
    ensures IsHdf5(path) ==>
              && (r.Ok? <==> exists i | 0 <= i < |src.labels| :: labelIdx(src.labels[i]) !in ModsSkip)
              && (r.Ok? ==> r.value == OtherRows(src, labelIdx, scale))
    ensures !IsHdf5(path) ==>
              && (r.Ok? <==> |src.labels| > 0)
              && (r.Ok? ==> r.value == WidenedRows(src, scale))
  {
    var b := if IsHdf5(path) then OtherRows(src, labelIdx, scale) else WidenedRows(src, scale);
    if |b.labels| == 0 then Err(LabelArrayNotTwoD)
    else
      var idx := SurvivingIndices(src.labels, labelIdx);
      assert IsHdf5(path) && |idx| > 0 ==> labelIdx(src.labels[idx[0]]) !in ModsSkip;
      Ok(b)
  }

  /** Every label the root merge_hdfset writes is 9 wide when the other
      sources carry 8-wide labels: the DeepSig labels are OtherLabel, the
      others are widened by one column, so both fit the one labels dataset
      the first source creates. */
  lemma UnBatchLabelWidth(path: string, src: Store, labelIdx: Label -> int, scale: IqRecord -> IqRecord)
    requires src.Aligned()
    requires !IsHdf5(path) ==> forall k | 0 <= k < |src.labels| :: |src.labels[k]| == 8
    requires UnBatch(path, src, labelIdx, scale).Ok?
    ensures IsOneHot(OtherLabel, 9, 8)
    ensures forall k | 0 <= k < |UnBatch(path, src, labelIdx, scale).value.labels| ::
              |UnBatch(path, src, labelIdx, scale).value.labels[k]| == 9
  {
    var out := UnBatch(path, src, labelIdx, scale).value;
    if IsHdf5(path) {
      assert out == OtherRows(src, labelIdx, scale);
    } else {
      assert out == WidenedRows(src, scale);
    }
  }
}
