/**
 `merge_files`: every .npz recording file found under the input folder is
 appended to one growable HDF5 store. The first file creates the three
 datasets from its data; each later file resizes every dataset by its own
 row count and writes its rows into the tail.
 */
module AppendStore {
  import opened Records

  /** The arrays of one .npz file: 'matrix', 'labels' (class names, encoded by
      encode_labels) and 'snrs'. */
  datatype Npz = Npz(matrix: seq<IqRecord>, labels: seq<string>, snrs: seq<int>)

  /** The three arrays of a file describe the same records. */
  predicate NpzAligned(f: Npz) {
    |f.matrix| == |f.labels| == |f.snrs|
  }

  /** encode_labels returns one encoded row per input label. */
  ghost predicate OneRowPerLabel(encodeLabels: seq<string> -> seq<Label>) {
    forall ls :: |encodeLabels(ls)| == |ls|
  }

  /** The rows one file contributes: the iq matrix with sort_matrix_entries
      applied to each record, the encoded labels and the raw SNRs. */
  function Rows(f: Npz, sortEntries: IqRecord -> IqRecord,
                encodeLabels: seq<string> -> seq<Label>): (b: Store)
    requires OneRowPerLabel(encodeLabels)
    ensures |b.iq| == |f.matrix| && |b.labels| == |f.labels| && b.snrs == f.snrs
    ensures b.labels == encodeLabels(f.labels)
    ensures forall k | 0 <= k < |f.matrix| :: b.iq[k] == sortEntries(f.matrix[k])
    ensures NpzAligned(f) ==> b.Aligned()
  {
    Store(seq(|f.matrix|, k requires 0 <= k < |f.matrix| => sortEntries(f.matrix[k])),
          encodeLabels(f.labels), f.snrs)
  }

  /** Lines 44-45 on one file. `np.apply_along_axis(..., axis=1, arr=iq)`
      raises when the array has no records (an iteration dimension of
      length 0); otherwise the file yields its rows. */
  function Process(f: Npz, sortEntries: IqRecord -> IqRecord,
                   encodeLabels: seq<string> -> seq<Label>): (r: Result<Store>)
    requires OneRowPerLabel(encodeLabels)
    ensures r.Ok? <==> |f.matrix| > 0
    ensures r.Err? ==> r.error == EmptyIteration
    ensures r.Ok? ==> r.value == Rows(f, sortEntries, encodeLabels) && |r.value.iq| > 0
  {
    if |f.matrix| == 0 then Err(EmptyIteration) else Ok(Rows(f, sortEntries, encodeLabels))
  }

  // ---------------------------------------------------------------------------
  // The tail write as the code performs it

  /** `ds.resize(len + k); ds[-k:] = rows` on one dataset, where the resize
      pads with the fill value. With k == 0 the slice `[-0:]` is `[0:]`, the
      whole dataset, and writing zero rows into it is a shape error unless the
      dataset is empty too. */
  function TailWriteAsWritten<T>(a: seq<T>, rows: seq<T>, fill: T): (r: Result<seq<T>>)
    ensures r.Ok? <==> |rows| > 0 || |a| == 0
    ensures r.Ok? ==> r.value == a + rows
    ensures r.Err? ==> r.error == ShapeMismatch
  {
    var k := |rows|;
    var grown := a + seq(k, _ => fill);
    var start := TailStart(|grown|, k);
    assert grown[..|a|] == a;
    if |grown| - start != k then Err(ShapeMismatch) else Ok(grown[..start] + rows)
  }

  /** When the file has rows, or the store is still empty, the as-written
      tail write is exactly an append. */
  lemma TailWriteAgrees<T>(a: seq<T>, rows: seq<T>, fill: T)
    requires |rows| > 0 || |a| == 0
    ensures TailWriteAsWritten(a, rows, fill) == Ok(a + rows)
  {
  }

  /** Zero rows appended to a non-empty dataset make the as-written tail
      write fail. */
  lemma TailWriteZeroRowsFails<T>(a: seq<T>, fill: T)
    requires |a| > 0
    ensures TailWriteAsWritten(a, [], fill) == Err(ShapeMismatch)
  {
  }

  /** The append branch of merge_files as written: iq, then labels, then
      snrs. It succeeds exactly when no dataset gets a zero-row tail write
      while non-empty, and then it is the append of the batch. */
  function AppendAsWritten(s: Store, b: Store): (r: Result<Store>)
    ensures r.Ok? <==> && (|b.iq| > 0 || |s.iq| == 0)
                       && (|b.labels| > 0 || |s.labels| == 0)
                       && (|b.snrs| > 0 || |s.snrs| == 0)
    ensures r.Ok? ==> r.value == Extend(s, b)
    ensures r.Err? ==> r.error == ShapeMismatch
  {
    var iq :- TailWriteAsWritten(s.iq, b.iq, []);
    var labels :- TailWriteAsWritten(s.labels, b.labels, []);
    var snrs :- TailWriteAsWritten(s.snrs, b.snrs, 0);
    Ok(Store(iq, labels, snrs))
  }

  /** The append branch on its own, given a batch without records: a
      one-record store and an empty batch make it raise. */
  lemma EmptyFileAppendFails(rec: IqRecord, lab: Label, snr: int)
    ensures AppendAsWritten(Store([rec], [lab], [snr]), Empty) == Err(ShapeMismatch)
  {
    TailWriteZeroRowsFails([rec], []);
  }

  /** The as-written append and the corrected one agree whenever the batch has
      rows (or the store is empty). */
  lemma AppendAgrees(s: Store, b: Store)
    requires s.Aligned() && b.Aligned()
    requires |b.iq| > 0 || |s.iq| == 0
    ensures AppendAsWritten(s, b) == Ok(Extend(s, b))
  {
    TailWriteAgrees(s.iq, b.iq, []);
    TailWriteAgrees(s.labels, b.labels, []);
    TailWriteAgrees(s.snrs, b.snrs, 0);
  }

  // ---------------------------------------------------------------------------
  // The file loop as written

  /** One iteration of the file loop as written: process the file, then
      create the store from its rows when the output does not exist yet, or
      append them with the tail write. A file without records raises before
      anything is written. */
  function FileStep(out: Option<Store>, f: Npz, sortEntries: IqRecord -> IqRecord,
                    encodeLabels: seq<string> -> seq<Label>): (r: Result<Option<Store>>)
    requires OneRowPerLabel(encodeLabels)
    ensures |f.matrix| == 0 ==> r == Err(EmptyIteration)
    ensures NpzAligned(f) && |f.matrix| > 0 ==>
              r == Ok(Some(Extend(Contents(out), Rows(f, sortEntries, encodeLabels))))
  {
    var b :- Process(f, sortEntries, encodeLabels);
    match out
    case None =>
      assert Extend(Empty, b) == b;
      Ok(Some(b))
    case Some(s) =>
      var t :- AppendAsWritten(s, b);
      Ok(Some(t))
  }

  /** What each file yields at lines 44-45, in file order. */
  function Processed(files: seq<Npz>, sortEntries: IqRecord -> IqRecord,
                     encodeLabels: seq<string> -> seq<Label>): (ps: seq<Result<Store>>)
    requires OneRowPerLabel(encodeLabels)
    ensures |ps| == |files|
    ensures forall j | 0 <= j < |files| :: ps[j] == Process(files[j], sortEntries, encodeLabels)
  {
    seq(|files|, j requires 0 <= j < |files| => Process(files[j], sortEntries, encodeLabels))
  }

  /** merge_files as written, from the output `out` (None when the file does
      not exist yet). On files whose arrays are aligned, the run stops at the
      first file without records, with the apply_along_axis exception, and
      the store holds its earlier content followed by the rows of every file
      before that one. */
  function MergeFilesAsWritten(out: Option<Store>, files: seq<Npz>, sortEntries: IqRecord -> IqRecord,
                               encodeLabels: seq<string> -> seq<Label>): (r: Run<Option<Store>>)
    requires OneRowPerLabel(encodeLabels)
    ensures (forall j | 0 <= j < |files| :: NpzAligned(files[j])) ==>
              var ps := Processed(files, sortEntries, encodeLabels);
              && (r.failure.None? <==> forall j | 0 <= j < |files| :: |files[j].matrix| > 0)
              && (r.failure.Some? ==> r.failure == Some(EmptyIteration))
              && Contents(r.state) == Extend(Contents(out), Concat(Values(ps, LeadingOk(ps))))
    decreases |files|
  {
    if |files| == 0 then
      assert Extend(Contents(out), Empty) == Contents(out);
      Run(out, None)
    else
      match FileStep(out, files[0], sortEntries, encodeLabels)
      case Err(e) =>
        assert Processed(files, sortEntries, encodeLabels)[0].Err? ==> Values(Processed(files, sortEntries, encodeLabels), 0) == [];
        assert Extend(Contents(out), Empty) == Contents(out);
        Run(out, Some(e))
      case Ok(out') =>
        var r := MergeFilesAsWritten(out', files[1..], sortEntries, encodeLabels);
        FileCase(out, files, sortEntries, encodeLabels);
        r
  }

  /** The bookkeeping of one successful file of MergeFilesAsWritten. */
  lemma FileCase(out: Option<Store>, files: seq<Npz>, sortEntries: IqRecord -> IqRecord,
                 encodeLabels: seq<string> -> seq<Label>)
    requires OneRowPerLabel(encodeLabels)
    requires |files| > 0 && |files[0].matrix| > 0
    ensures var ps := Processed(files, sortEntries, encodeLabels);
            var rest := Processed(files[1..], sortEntries, encodeLabels);
            && LeadingOk(ps) == 1 + LeadingOk(rest)
            && Extend(Extend(Contents(out), ps[0].value), Concat(Values(rest, LeadingOk(rest))))
               == Extend(Contents(out), Concat(Values(ps, LeadingOk(ps))))
  {
    var ps := Processed(files, sortEntries, encodeLabels);
    var rest := Processed(files[1..], sortEntries, encodeLabels);
    assert ps[1..] == rest;
    var m := LeadingOk(ps);
    assert m == 1 + LeadingOk(rest);
    var vs := Values(rest, m - 1);
    assert Values(ps, m) == [ps[0].value] + vs;
    assert ([ps[0].value] + vs)[1..] == vs;
    ExtendAssoc(Contents(out), ps[0].value, Concat(vs));
  }

  /** Concrete instance: a file without records followed by a file with one.
      The announced total is one record, but the run raises on the first
      file and never writes the second. */
  lemma EmptyNpzAborts(rec: IqRecord, name: string, snr: int, sortEntries: IqRecord -> IqRecord,
                       encodeLabels: seq<string> -> seq<Label>)
    requires OneRowPerLabel(encodeLabels)
    ensures var files := [Npz([], [], []), Npz([rec], [name], [snr])];
            && TotalSamples(files) == 1
            && MergeFilesAsWritten(None, files, sortEntries, encodeLabels) == Run(None, Some(EmptyIteration))
  {
    var files := [Npz([], [], []), Npz([rec], [name], [snr])];
    assert files[1..] == [files[1]];
    assert files[1..][1..] == [];
    assert TotalSamples(files[1..]) == 1 + TotalSamples([]);
  }

  // ---------------------------------------------------------------------------
  // The merge, corrected to skip files without records

  /** What one file contributes once files without records are skipped. */
  function Batch(f: Npz, sortEntries: IqRecord -> IqRecord,
                 encodeLabels: seq<string> -> seq<Label>): (b: Store)
    requires OneRowPerLabel(encodeLabels)
    ensures b == Empty <==> |f.matrix| == 0
    ensures |f.matrix| > 0 ==> b == Rows(f, sortEntries, encodeLabels)
    ensures NpzAligned(f) ==> b.Aligned() && |b.labels| == |f.labels|
  {
    if |f.matrix| == 0 then Empty else Rows(f, sortEntries, encodeLabels)
  }

  /** One file: create the store from the rows if the output does not exist
      yet, otherwise append them. */
  function MergeStep(out: Option<Store>, b: Store): (r: Option<Store>)
    ensures r.Some?
    ensures Contents(r) == Extend(Contents(out), b)
  {
    match out
    case None =>
      assert Extend(Empty, b) == b;
      Some(b)
    case Some(s) => Some(Extend(s, b))
  }

  /** The number of records the script reports before merging
      ("Samples accounted for"): the sum of the files' label counts. */
  function TotalSamples(files: seq<Npz>): nat {
    if |files| == 0 then 0 else |files[0].labels| + TotalSamples(files[1..])
  }

  /** The rows every file contributes, in file order. */
  function Batches(files: seq<Npz>, sortEntries: IqRecord -> IqRecord,
                   encodeLabels: seq<string> -> seq<Label>): (bs: seq<Store>)
    requires OneRowPerLabel(encodeLabels)
    ensures |bs| == |files|
    ensures forall j | 0 <= j < |files| :: bs[j] == Batch(files[j], sortEntries, encodeLabels)
  {
    seq(|files|, j requires 0 <= j < |files| => Batch(files[j], sortEntries, encodeLabels))
  }

  /** On aligned files the record count announced before the merge is the
      number of label rows the files contribute. */
  lemma {:induction false} TotalSamplesIsLabelCount(files: seq<Npz>, sortEntries: IqRecord -> IqRecord,
                                                    encodeLabels: seq<string> -> seq<Label>)
    requires OneRowPerLabel(encodeLabels)
    requires forall j | 0 <= j < |files| :: NpzAligned(files[j])
    ensures SumLabels(Batches(files, sortEntries, encodeLabels)) == TotalSamples(files)
  {
    if |files| > 0 {
      var bs := Batches(files, sortEntries, encodeLabels);
      assert bs[1..] == Batches(files[1..], sortEntries, encodeLabels);
      TotalSamplesIsLabelCount(files[1..], sortEntries, encodeLabels);
    }
  }

  /** The merge loop over the batches: each batch with content is appended in
      turn, and an empty one is skipped. */
  method AppendAll(existing: Option<Store>, bs: seq<Store>) returns (out: Option<Store>)
    ensures out.None? <==> existing.None? && forall j | 0 <= j < |bs| :: bs[j] == Empty
    ensures Contents(out) == Extend(Contents(existing), Concat(bs))
  {
    out := existing;
    var i := 0;
    while i < |bs|
      invariant 0 <= i <= |bs|
      invariant out.None? <==> existing.None? && forall j | 0 <= j < i :: bs[j] == Empty
      invariant Contents(out) == Extend(Contents(existing), Concat(bs[..i]))
    {
      ConcatSnoc(bs[..i], bs[i]);
      assert bs[..i + 1] == bs[..i] + [bs[i]];
      ExtendAssoc(Contents(existing), Concat(bs[..i]), bs[i]);
      if bs[i] != Empty {
        out := MergeStep(out, bs[i]);
      } else {
        assert Extend(Contents(out), Empty) == Contents(out);
      }
      i := i + 1;
    }
    assert bs[..i] == bs;
  }

  /** merge_files, corrected to skip files without records: `existing` is
      the output file if it is already on disk. After the loop the store
      holds the earlier contents followed by every file's rows in order.
      On aligned files its label count grew by the announced total, it
      stays aligned when it was, and when no file is empty the script as
      written produces the same store without raising. */
  method MergeFiles(existing: Option<Store>, files: seq<Npz>, sortEntries: IqRecord -> IqRecord,
                    encodeLabels: seq<string> -> seq<Label>) returns (out: Option<Store>)
    requires OneRowPerLabel(encodeLabels)
    ensures out.None? <==> existing.None? && forall j | 0 <= j < |files| :: |files[j].matrix| == 0
    ensures Contents(out) == Extend(Contents(existing), Concat(Batches(files, sortEntries, encodeLabels)))
    ensures (forall j | 0 <= j < |files| :: NpzAligned(files[j])) ==>
              && |Contents(out).labels| == |Contents(existing).labels| + TotalSamples(files)
              && (Contents(existing).Aligned() ==> Contents(out).Aligned())
    ensures (forall j | 0 <= j < |files| :: NpzAligned(files[j]) && |files[j].matrix| > 0) ==>
              MergeFilesAsWritten(existing, files, sortEntries, encodeLabels) == Run(out, None)
  {
    var bs := Batches(files, sortEntries, encodeLabels);
    out := AppendAll(existing, bs);
    if forall j | 0 <= j < |files| :: NpzAligned(files[j]) {
      AlignedMerge(existing, files, sortEntries, encodeLabels);
      if forall j | 0 <= j < |files| :: |files[j].matrix| > 0 {
        SameOutput(existing, files, sortEntries, encodeLabels, out);
      }
    }
  }

  /** On aligned files the merged store has grown by the announced total and
      stays aligned. */
  lemma AlignedMerge(existing: Option<Store>, files: seq<Npz>, sortEntries: IqRecord -> IqRecord,
                     encodeLabels: seq<string> -> seq<Label>)
    requires OneRowPerLabel(encodeLabels)
    requires forall j | 0 <= j < |files| :: NpzAligned(files[j])
    ensures var m := Extend(Contents(existing), Concat(Batches(files, sortEntries, encodeLabels)));
            && |m.labels| == |Contents(existing).labels| + TotalSamples(files)
            && (Contents(existing).Aligned() ==> m.Aligned())
  {
    var bs := Batches(files, sortEntries, encodeLabels);
    TotalSamplesIsLabelCount(files, sortEntries, encodeLabels);
    ConcatLabelCount(bs);
    ConcatAligned(bs);
  }

  /** The corrected loop's output, on aligned non-empty files, is what the
      loop as written produces. */
  lemma SameOutput(existing: Option<Store>, files: seq<Npz>, sortEntries: IqRecord -> IqRecord,
                   encodeLabels: seq<string> -> seq<Label>, out: Option<Store>)
    requires OneRowPerLabel(encodeLabels)
    requires forall j | 0 <= j < |files| :: NpzAligned(files[j]) && |files[j].matrix| > 0
    requires out.None? <==> existing.None? && forall j | 0 <= j < |files| :: |files[j].matrix| == 0
    requires Contents(out) == Extend(Contents(existing), Concat(Batches(files, sortEntries, encodeLabels)))
    ensures MergeFilesAsWritten(existing, files, sortEntries, encodeLabels) == Run(out, None)
  {
    AsWrittenAgrees(existing, files, sortEntries, encodeLabels);
    var r := MergeFilesAsWritten(existing, files, sortEntries, encodeLabels);
    if |files| > 0 {
      assert |files[0].matrix| > 0;
      assert out.Some? && r.state.Some?;
      assert r.state.value == Contents(r.state) == Contents(out) == out.value;
    }
  }

  /** With every file aligned and non-empty, the loop as written raises
      nothing and builds the same store as the corrected one. */
  lemma AsWrittenAgrees(existing: Option<Store>, files: seq<Npz>, sortEntries: IqRecord -> IqRecord,
                        encodeLabels: seq<string> -> seq<Label>)
    requires OneRowPerLabel(encodeLabels)
    requires forall j | 0 <= j < |files| :: NpzAligned(files[j]) && |files[j].matrix| > 0
    ensures var r := MergeFilesAsWritten(existing, files, sortEntries, encodeLabels);
            && r.failure.None?
            && Contents(r.state) == Extend(Contents(existing), Concat(Batches(files, sortEntries, encodeLabels)))
            && (r.state.None? <==> existing.None? && |files| == 0)
  {
    var ps := Processed(files, sortEntries, encodeLabels);
    LeadingOkAll(ps);
    assert Values(ps, |ps|) == Batches(files, sortEntries, encodeLabels);
    StateExists(existing, files, sortEntries, encodeLabels);
  }

  /** The as-written loop leaves an output once it has written a file. */
  lemma {:induction false} StateExists(out: Option<Store>, files: seq<Npz>, sortEntries: IqRecord -> IqRecord,
                                       encodeLabels: seq<string> -> seq<Label>)
    requires OneRowPerLabel(encodeLabels)
    requires forall j | 0 <= j < |files| :: NpzAligned(files[j]) && |files[j].matrix| > 0
    ensures MergeFilesAsWritten(out, files, sortEntries, encodeLabels).state.None? <==> out.None? && |files| == 0
    decreases |files|
  {
    if |files| > 0 {
      var out' := FileStep(out, files[0], sortEntries, encodeLabels).value;
      StateExists(out', files[1..], sortEntries, encodeLabels);
    }
  }
}
