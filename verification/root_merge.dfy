/**
 The root-level `merge_hdfset`: the VSG recordings and the DeepSig dataset
 go into one HDF5 store through the same row1 cursor loop as the other
 merges, each source preprocessed by `UnBatch` first.
 */
module RootMerge {
  import opened Records
  import opened CursorMerge
  import opened Relabel

  /** Each source's preprocessed rows, or the exception preprocessing raised. */
  function UnBatches(sources: seq<Source>, labelIdx: Label -> int, scale: IqRecord -> IqRecord)
    : (bs: seq<Result<Store>>)
    requires forall j | 0 <= j < |sources| :: sources[j].data.Aligned()
    ensures |bs| == |sources|
    ensures forall j | 0 <= j < |sources| :: bs[j] == UnBatch(sources[j].path, sources[j].data, labelIdx, scale)
    ensures AllAligned(bs)
    ensures forall j | 0 <= j < |bs| && bs[j].Ok? :: |bs[j].value.iq| > 0
    ensures forall j | 0 <= j < |bs| && bs[j].Err? :: bs[j].error == LabelArrayNotTwoD
  {
    seq(|sources|, j requires 0 <= j < |sources| => UnBatch(sources[j].path, sources[j].data, labelIdx, scale))
  }

  /** merge_hdfset (root): the output holds the preprocessed rows of every
      source before the first one whose rebuilt label array is empty; that
      source stops the run with the `label_data.shape[1]` IndexError
      (LabelArrayNotTwoD). Because every source with equally long arrays
      that reaches the write has at least one record, the loop as written
      never re-creates the datasets and behaves like the corrected one. */
  function MergeHdfsetUn(sources: seq<Source>, labelIdx: Label -> int, scale: IqRecord -> IqRecord)
    : (r: Run<Cursor>)
    requires forall j | 0 <= j < |sources| :: sources[j].data.Aligned()
    ensures r == MergeAsWritten(Start, UnBatches(sources, labelIdx, scale))
    ensures r.failure.None? <==>
              forall j | 0 <= j < |sources| :: UnBatch(sources[j].path, sources[j].data, labelIdx, scale).Ok?
    ensures r.failure.Some? ==> r.failure == Some(LabelArrayNotTwoD)
    ensures var bs := UnBatches(sources, labelIdx, scale);
            Contents(r.state.out) == Concat(Values(bs, LeadingOk(bs)))
    ensures Contents(r.state.out).Aligned()
    ensures r.state.row1 == |Contents(r.state.out).iq|
  {
    var bs := UnBatches(sources, labelIdx, scale);
    MergeFromStart(bs, LabelArrayNotTwoD);
    Merge(Start, bs)
  }

  /** With 8-wide labels in every VSG source, every label the merge writes
      is 9 wide: the width of the labels dataset the first source creates. */
  lemma MergedLabelWidth(sources: seq<Source>, labelIdx: Label -> int, scale: IqRecord -> IqRecord)
    requires forall j | 0 <= j < |sources| :: sources[j].data.Aligned()
    requires forall j, k | 0 <= j < |sources| && !IsHdf5(sources[j].path) && 0 <= k < |sources[j].data.labels| ::
               |sources[j].data.labels[k]| == 8
    ensures var out := Contents(MergeHdfsetUn(sources, labelIdx, scale).state.out);
            forall k | 0 <= k < |out.labels| :: |out.labels[k]| == 9
  {
    var bs := UnBatches(sources, labelIdx, scale);
    var vs := Values(bs, LeadingOk(bs));
    forall j | 0 <= j < |vs|
      ensures forall k | 0 <= k < |vs[j].labels| :: |vs[j].labels[k]| == 9
    {
      UnBatchLabelWidth(sources[j].path, sources[j].data, labelIdx, scale);
    }
    ConcatLabelWidth(vs, 9);
  }
}
