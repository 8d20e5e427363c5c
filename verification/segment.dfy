/**
 `sample_from_h5`: every recording of an IQ store is cut into
 samples_per_segment shorter recordings of `batch` IQ pairs each. The label
 of the recording is repeated over the pieces and its SNR is stored as int8.
 The pieces are appended to the output store, row after row.
 */
module Segment {
  import opened Records
  import AppendStore

  /** IQ pairs per source recording. */
  const NumIq: nat := 1024
  /** IQ pairs per output recording. */
  const Batch: nat := 256
  /** `int(num_iq / batch)`, written out (see SegmentConstants). */
  const SamplesPerSegment: nat := 4
  /** `int(batch * samples_per_segment)`, written out. */
  const CutOff: nat := 1024

  /** The written-out constants are the script's expressions. */
  lemma SegmentConstants()
    ensures SamplesPerSegment == NumIq / Batch
    ensures CutOff == Batch * SamplesPerSegment == NumIq
  {
  }
  /** Width of the batch_labels buffer. */
  const LabelWidth: nat := 8

  /** The n consecutive pieces of width w at the front of a row. */
  function Pieces<T>(row: seq<T>, w: nat, n: nat): (ps: seq<seq<T>>)
    requires n * w <= |row|
    ensures |ps| == n
    ensures forall j | 0 <= j < n :: |ps[j]| == w
  {
    seq(n, j requires 0 <= j < n => MulBelow(j, n, w); Piece(row, w, j))
  }

  /** Piece j of width w: `row[j*w:(j+1)*w]`. */
  function Piece<T>(row: seq<T>, w: nat, j: nat): (p: seq<T>)
    requires j * w + w <= |row|
    ensures |p| == w
  {
    row[j * w..j * w + w]
  }

  /** (j + 1) * w <= n * w when j < n. */
  lemma MulBelow(j: nat, n: nat, w: nat)
    requires j < n
    ensures j * w + w <= n * w
  {
    var k := n - (j + 1);
    assert n * w == j * w + w + k * w;
  }

  /** np.split(row, parts): parts pieces of equal width, or an exception when
      the row length is not a multiple of parts. */
  function SplitEqual<T>(row: seq<T>, parts: nat): (r: Result<seq<seq<T>>>)
    requires parts > 0
    ensures r.Ok? <==> |row| % parts == 0
    ensures r.Err? ==> r.error == UnequalSplit
    ensures r.Ok? ==> |r.value| == parts && forall j | 0 <= j < parts :: |r.value[j]| == |row| / parts
  {
    if |row| % parts != 0 then Err(UnequalSplit)
    else
      var w := |row| / parts;
      Ok(Pieces(row, w, parts))
  }

  /** Joining the pieces gives back the front of the row they cover. */
  lemma {:induction false} FlattenPieces<T>(row: seq<T>, w: nat, n: nat)
    requires n * w <= |row|
    ensures Flatten(Pieces(row, w, n)) == row[..n * w]
  {
    if n > 0 {
      MulBelow(n - 1, n, w);
      var ps := Pieces(row, w, n);
      assert ps[..n - 1] == Pieces(row, w, n - 1);
      FlattenPieces(row, w, n - 1);
      assert row[..(n - 1) * w] + row[(n - 1) * w..n * w] == row[..n * w];
    }
  }

  /** Splitting loses nothing: the pieces joined are the row. */
  lemma SplitRoundTrip<T>(row: seq<T>, parts: nat)
    requires parts > 0 && |row| % parts == 0
    ensures SplitEqual(row, parts).Ok?
    ensures Flatten(SplitEqual(row, parts).value) == row
  {
    var w := |row| / parts;
    assert parts * w == |row|;
    FlattenPieces(row, w, parts);
  }

  /** `batch_labels[:] = np.array(labels[row])`: numpy broadcasts the label
      into every one of the samples_per_segment rows of an 8-wide buffer.
      An 8-wide label is copied into each row, a 1-wide one fills every
      cell; any other width does not broadcast. */
  function BroadcastLabel(lab: Label): (r: Result<seq<Label>>)
    ensures r.Ok? <==> |lab| == LabelWidth || |lab| == 1
    ensures r.Err? ==> r.error == LabelShape
    ensures r.Ok? ==>
              && |r.value| == SamplesPerSegment
              && forall j | 0 <= j < SamplesPerSegment ::
                   && |r.value[j]| == LabelWidth
                   && forall c | 0 <= c < LabelWidth :: r.value[j][c] == (if |lab| == 1 then lab[0] else lab[c])
  {
    if |lab| == LabelWidth then Ok(seq(SamplesPerSegment, _ => lab))
    else if |lab| == 1 then Ok(seq(SamplesPerSegment, _ => seq(LabelWidth, _ => lab[0])))
    else Err(LabelShape)
  }

  /** The recording samples one row turns into. `cutOff` is Some(CutOff) in
      data_processing/merge_filtered.py, which keeps only the first
      cut_off IQ pairs, and None in the root script, which splits the whole
      row. The steps fail in the order the script runs them: the split, then
      the label read and broadcast, then the SNR read. */
  function SegmentRow(src: Store, row: nat, cutOff: Option<nat>): (r: Result<Store>)
    requires row < |src.iq|
    ensures var iq := if cutOff.Some? then Take(src.iq[row], cutOff.value) else src.iq[row];
            r.Ok? <==> |iq| % SamplesPerSegment == 0 && row < |src.labels| && row < |src.snrs|
                       && (|src.labels[row]| == LabelWidth || |src.labels[row]| == 1)
    ensures r.Ok? ==>
              var iq := if cutOff.Some? then Take(src.iq[row], cutOff.value) else src.iq[row];
              && r.value.Aligned()
              && |r.value.iq| == SamplesPerSegment
              && Flatten(r.value.iq) == iq
              && r.value.labels == BroadcastLabel(src.labels[row]).value
              && forall j | 0 <= j < SamplesPerSegment :: r.value.snrs[j] == ToInt8(src.snrs[row])
    ensures r.Err? ==>
              var iq := if cutOff.Some? then Take(src.iq[row], cutOff.value) else src.iq[row];
              r.error == if |iq| % SamplesPerSegment != 0 then UnequalSplit
                         else if row >= |src.labels| then IndexOutOfRange
                         else if |src.labels[row]| != LabelWidth && |src.labels[row]| != 1 then LabelShape
                         else IndexOutOfRange
  {
    var iq := if cutOff.Some? then Take(src.iq[row], cutOff.value) else src.iq[row];
    var pieces :- SplitEqual(iq, SamplesPerSegment);
    SplitRoundTrip(iq, SamplesPerSegment);
    var lab :- if row < |src.labels| then Ok(src.labels[row]) else Err(IndexOutOfRange);
    var labels :- BroadcastLabel(lab);
    var snr :- if row < |src.snrs| then Ok(src.snrs[row]) else Err(IndexOutOfRange);
    Ok(Store(pieces, labels, seq(SamplesPerSegment, _ => ToInt8(snr))))
  }

  /** Every row's samples, or the exception its processing raises. */
  function Segments(src: Store, cutOff: Option<nat>): (segs: seq<Result<Store>>)
    ensures |segs| == |src.iq|
    ensures forall row | 0 <= row < |src.iq| :: segs[row] == SegmentRow(src, row, cutOff)
  {
    seq(|src.iq|, row requires 0 <= row < |src.iq| => SegmentRow(src, row, cutOff))
  }

  /** The append branch writes the samples with `[-k:]` for k ==
      samples_per_segment rows, which is never zero here: it is the plain
      append of the rows. */
  lemma SegmentAppend(s: Store, seg: Store)
    requires seg.Aligned() && |seg.iq| == SamplesPerSegment
    ensures AppendStore.AppendAsWritten(s, seg) == Ok(Extend(s, seg))
  {
    AppendStore.TailWriteAgrees(s.iq, seg.iq, []);
    AppendStore.TailWriteAgrees(s.labels, seg.labels, []);
    AppendStore.TailWriteAgrees(s.snrs, seg.snrs, 0);
  }

  /** One row's write: create the output from the samples when it does not
      exist, otherwise append them. */
  function WriteSegment(out: Option<Store>, seg: Store): (r: Option<Store>)
    requires seg.Aligned() && |seg.iq| == SamplesPerSegment
    ensures r == Some(Extend(Contents(out), seg))
  {
    SegmentAppend(Contents(out), seg);
    match out
    case None =>
      assert Extend(Empty, seg) == seg;
      Some(seg)
    case Some(s) => Some(AppendStore.AppendAsWritten(s, seg).value)
  }

  /** Row results the write loop can take: every success is a block of
      samples_per_segment aligned samples. */
  predicate WellFormed(segs: seq<Result<Store>>) {
    forall j | 0 <= j < |segs| && segs[j].Ok? :: segs[j].value.Aligned() && |segs[j].value.iq| == SamplesPerSegment
  }

  /** The row loop of sample_from_h5 over the rows' results: it writes each
      row's samples until a row raises. */
  method WriteAll(out0: Option<Store>, segs: seq<Result<Store>>) returns (r: Run<Option<Store>>)
    requires WellFormed(segs)
    ensures r.failure.None? <==> LeadingOk(segs) == |segs|
    ensures r.failure.Some? ==> r.failure == Some(segs[LeadingOk(segs)].error)
    ensures Contents(r.state) == Extend(Contents(out0), Concat(Values(segs, LeadingOk(segs))))
    ensures |Contents(r.state).iq| == |Contents(out0).iq| + SamplesPerSegment * LeadingOk(segs)
    ensures r.state.None? <==> out0.None? && LeadingOk(segs) == 0
  {
    var out := out0;
    var row := 0;
    while row < |segs| && segs[row].Ok?
      invariant 0 <= row <= |segs|
      invariant forall j | 0 <= j < row :: segs[j].Ok?
      invariant out.None? <==> out0.None? && row == 0
      invariant Contents(out) == Extend(Contents(out0), Concat(Values(segs, row)))
      invariant |Contents(out).iq| == |Contents(out0).iq| + SamplesPerSegment * row
    {
      WriteNext(out0, segs, row);
      out := WriteSegment(out, segs[row].value);
      row := row + 1;
    }
    LeadingOkIs(segs, row);
    if row < |segs| {
      r := Run(out, Some(segs[row].error));
    } else {
      r := Run(out, None);
    }
  }

  /** One more successful row extends the written prefix by its samples. */
  lemma WriteNext(out0: Option<Store>, segs: seq<Result<Store>>, row: nat)
    requires row < |segs| && forall j | 0 <= j <= row :: segs[j].Ok?
    ensures Extend(Extend(Contents(out0), Concat(Values(segs, row))), segs[row].value)
            == Extend(Contents(out0), Concat(Values(segs, row + 1)))
  {
    var seg := segs[row].value;
    assert Values(segs, row + 1) == Values(segs, row) + [seg];
    ConcatSnoc(Values(segs, row), seg);
    ExtendAssoc(Contents(out0), Concat(Values(segs, row)), seg);
  }

  /** sample_from_h5: rows are processed in order until one raises. The
      output then holds what it held before followed by the samples of
      every row before that one; a run without exception writes
      samples_per_segment samples per source row. */
  method SampleFromH5(src: Store, out0: Option<Store>, cutOff: Option<nat>) returns (r: Run<Option<Store>>)
    ensures var segs := Segments(src, cutOff);
            && (r.failure.None? <==> LeadingOk(segs) == |segs|)
            && (r.failure.Some? ==> r.failure == Some(segs[LeadingOk(segs)].error))
            && Contents(r.state) == Extend(Contents(out0), Concat(Values(segs, LeadingOk(segs))))
    ensures r.failure.None? ==> |Contents(r.state).iq| == |Contents(out0).iq| + SamplesPerSegment * |src.iq|
    ensures r.state.None? <==> out0.None? && LeadingOk(Segments(src, cutOff)) == 0
  {
    var segs := Segments(src, cutOff);
    r := WriteAll(out0, segs);
  }

  /** A prefix of successes followed by a failure or the end is exactly the
      leading run of successes. */
  lemma {:induction false} LeadingOkIs(bs: seq<Result<Store>>, m: nat)
    requires m <= |bs|
    requires forall j | 0 <= j < m :: bs[j].Ok?
    requires m < |bs| ==> bs[m].Err?
    ensures LeadingOk(bs) == m
  {
    if m > 0 {
      LeadingOkIs(bs[1..], m - 1);
    }
  }

  /** Where each sample lands: in the concatenated samples of rows that all
      succeeded, record samples_per_segment * row + p is piece p of source
      row `row`, with that row's label and SNR. */
  lemma {:induction false} SampleLayout(segs: seq<Store>, row: nat, p: nat)
    requires forall j | 0 <= j < |segs| ::
               |segs[j].iq| == |segs[j].labels| == |segs[j].snrs| == SamplesPerSegment
    requires row < |segs| && p < SamplesPerSegment
    ensures |Concat(segs).iq| == |Concat(segs).labels| == |Concat(segs).snrs| == SamplesPerSegment * |segs|
    ensures Concat(segs).iq[SamplesPerSegment * row + p] == segs[row].iq[p]
    ensures Concat(segs).labels[SamplesPerSegment * row + p] == segs[row].labels[p]
    ensures Concat(segs).snrs[SamplesPerSegment * row + p] == segs[row].snrs[p]
  {
    UniformLengths(segs);
    var c := Concat(segs);
    var rest := Concat(segs[1..]);
    ExtendLayout(segs[0], rest);
    if row == 0 {
      assert c.iq[p] == c.iq[..SamplesPerSegment][p];
      assert c.labels[p] == c.labels[..SamplesPerSegment][p];
      assert c.snrs[p] == c.snrs[..SamplesPerSegment][p];
    } else {
      SampleLayout(segs[1..], row - 1, p);
      var x := SamplesPerSegment * (row - 1) + p;
      assert SamplesPerSegment * row + p == SamplesPerSegment + x;
      assert c.iq[SamplesPerSegment + x] == c.iq[SamplesPerSegment..][x];
      assert c.labels[SamplesPerSegment + x] == c.labels[SamplesPerSegment..][x];
      assert c.snrs[SamplesPerSegment + x] == c.snrs[SamplesPerSegment..][x];
    }
  }

  /** Blocks of samples_per_segment records concatenate to
      samples_per_segment records per block. */
  lemma {:induction false} UniformLengths(segs: seq<Store>)
    requires forall j | 0 <= j < |segs| ::
               |segs[j].iq| == |segs[j].labels| == |segs[j].snrs| == SamplesPerSegment
    ensures |Concat(segs).iq| == |Concat(segs).labels| == |Concat(segs).snrs| == SamplesPerSegment * |segs|
  {
    if |segs| > 0 {
      UniformLengths(segs[1..]);
    }
  }
}
