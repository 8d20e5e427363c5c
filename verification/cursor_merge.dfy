/**
 `merge_hdfset`: a fixed list of HDF5 source files is merged into a fresh
 output file through a `row1` write cursor. The first source creates the
 three datasets sized to its record count; each source is then written at
 rows [row1, row1 + dslen), resizing the datasets first when that range does
 not fit, and row1 advances by dslen.
 */
module CursorMerge {
  import opened Records

  /** The output file (opened in 'w' mode, so initially without datasets)
      and the row1 cursor. */
  datatype Cursor = Cursor(out: Option<Store>, row1: nat)

  const Start: Cursor := Cursor(None, 0)

  /** The cursor sits one past the last written record of an aligned store. */
  predicate Valid(c: Cursor) {
    match c.out
    case None => c.row1 == 0
    case Some(s) => s.Aligned() && c.row1 == |s.iq|
  }

  /** h5py `resize` along the record axis: truncate, or pad with the fill value. */
  function Resize<T>(s: seq<T>, n: nat, fill: T): (r: seq<T>)
    ensures |r| == n
    ensures forall k | 0 <= k < n && k < |s| :: r[k] == s[k]
  {
    if n <= |s| then s[..n] else s + seq(n - |s|, _ => fill)
  }

  /** `ds[at:at + len(rows)] = rows`. */
  function Overwrite<T>(s: seq<T>, at: nat, rows: seq<T>): (r: seq<T>)
    requires at + |rows| <= |s|
    ensures |r| == |s|
    ensures r[..at] == s[..at]
    ensures r[at..at + |rows|] == rows
    ensures r[at + |rows|..] == s[at + |rows|..]
  {
    s[..at] + rows + s[at + |rows|..]
  }

  /** `create_dataset(shape=(n, ...))`: n zero-filled records (the inner
      shape of an iq or label row is not modelled). */
  function Zeros(n: nat): (s: Store)
    ensures s.Aligned() && |s.iq| == n
  {
    Store(seq(n, _ => []), seq(n, _ => []), seq(n, _ => 0))
  }

  /** Writing a batch at row1: in place when `row1 + dslen <= len(file['iq'])`,
      otherwise after resizing every dataset to row1 + dslen. The records
      before row1 are untouched and the batch lands at [row1, row1 + dslen). */
  function WriteRows(s: Store, row1: nat, b: Store): (r: Store)
    requires s.Aligned() && b.Aligned() && row1 <= |s.iq|
    ensures r.Aligned()
    ensures |r.iq| == if row1 + |b.iq| <= |s.iq| then |s.iq| else row1 + |b.iq|
    ensures r.iq[..row1] == s.iq[..row1] && r.iq[row1..row1 + |b.iq|] == b.iq
    ensures r.labels[..row1] == s.labels[..row1] && r.labels[row1..row1 + |b.iq|] == b.labels
    ensures r.snrs[..row1] == s.snrs[..row1] && r.snrs[row1..row1 + |b.iq|] == b.snrs
  {
    var end := row1 + |b.iq|;
    var t := if end <= |s.iq| then s
             else Store(Resize(s.iq, end, []), Resize(s.labels, end, []), Resize(s.snrs, end, 0));
    assert t.iq[..row1] == s.iq[..row1] && t.labels[..row1] == s.labels[..row1] && t.snrs[..row1] == s.snrs[..row1];
    Store(Overwrite(t.iq, row1, b.iq), Overwrite(t.labels, row1, b.labels), Overwrite(t.snrs, row1, b.snrs))
  }

  /** With the cursor at the end of the store, the resize-then-write is an
      append: the same store `merge_files` builds by writing the tail. */
  lemma WriteAtEndIsAppend(s: Store, b: Store)
    requires s.Aligned() && b.Aligned()
    ensures WriteRows(s, |s.iq|, b) == Extend(s, b)
  {
    var r := WriteRows(s, |s.iq|, b);
    assert r.iq == r.iq[..|s.iq|] + r.iq[|s.iq|..|s.iq| + |b.iq|];
    assert r.labels == r.labels[..|s.iq|] + r.labels[|s.iq|..|s.iq| + |b.iq|];
    assert r.snrs == r.snrs[..|s.iq|] + r.snrs[|s.iq|..|s.iq| + |b.iq|];
  }

  /** One source, corrected: the datasets are created by the first source
      only (when the file has none yet), then the batch is written at row1. */
  function Step(c: Cursor, b: Store): (r: Cursor)
    requires Valid(c) && b.Aligned()
    ensures Valid(r) && r.out.Some?
    ensures r.row1 == c.row1 + |b.iq|
    ensures Contents(r.out) == Extend(Contents(c.out), b)
  {
    var s := if c.out.None? then Zeros(|b.iq|) else c.out.value;
    WriteAtEndIsAppend(s, b);
    assert c.out.None? ==> WriteRows(s, 0, b) == b;
    Cursor(Some(WriteRows(s, c.row1, b)), c.row1 + |b.iq|)
  }

  /** One source as written: the datasets are created whenever row1 == 0, so
      a second creation fails once an empty first source has left row1 at 0. */
  function StepAsWritten(c: Cursor, b: Store): (r: Result<Cursor>)
    requires Valid(c) && b.Aligned()
    ensures r.Err? <==> c.row1 == 0 && c.out.Some?
    ensures r.Err? ==> r.error == DatasetExists
    ensures r.Ok? ==> r.value == Step(c, b)
  {
    if c.row1 == 0 && c.out.Some? then Err(DatasetExists)
    else
      var s := if c.row1 == 0 then Zeros(|b.iq|) else c.out.value;
      Ok(Cursor(Some(WriteRows(s, c.row1, b)), c.row1 + |b.iq|))
  }

  predicate AllAligned(bs: seq<Result<Store>>) {
    forall j | 0 <= j < |bs| && bs[j].Ok? :: bs[j].value.Aligned()
  }

  /** Peeling the first successful batch off the values of a prefix. */
  lemma ValuesCons(bs: seq<Result<Store>>, m: nat)
    requires 0 < m <= |bs|
    requires forall j | 0 <= j < m :: bs[j].Ok?
    ensures Values(bs, m) == [bs[0].value] + Values(bs[1..], m - 1)
  {
  }

  /** The merge loop, corrected. Batches are the preprocessed sources, in
      order; an Err batch is a source whose preprocessing raised. The run
      stops at the first failure, keeping what was written so far. */
  function Merge(c: Cursor, bs: seq<Result<Store>>): (r: Run<Cursor>)
    requires Valid(c) && AllAligned(bs)
    ensures Valid(r.state)
    ensures r.failure.None? <==> LeadingOk(bs) == |bs|
    ensures r.failure.Some? ==> r.failure == Some(bs[LeadingOk(bs)].error)
    ensures Contents(r.state.out) == Extend(Contents(c.out), Concat(Values(bs, LeadingOk(bs))))
    ensures r.state.row1 == |Contents(r.state.out).iq|
    decreases |bs|
  {
    if |bs| == 0 then
      assert Extend(Contents(c.out), Empty) == Contents(c.out);
      Run(c, None)
    else
      match bs[0]
      case Err(e) =>
        assert Extend(Contents(c.out), Empty) == Contents(c.out);
        Run(c, Some(e))
      case Ok(b) =>
        assert AllAligned(bs[1..]) by {
          forall j | 0 <= j < |bs| - 1 && bs[1..][j].Ok? ensures bs[1..][j].value.Aligned() {
            assert bs[1..][j] == bs[j + 1];
          }
        }
        var r := Merge(Step(c, b), bs[1..]);
        assert LeadingOk(bs) == 1 + LeadingOk(bs[1..]);
        MergeOkCase(c, bs, b);
        r
  }

  /** The bookkeeping of one successful step of the merge loop: the first
      batch followed by the rest is the whole prefix. */
  lemma MergeOkCase(c: Cursor, bs: seq<Result<Store>>, b: Store)
    requires Valid(c) && |bs| > 0 && bs[0] == Ok(b) && b.Aligned()
    ensures Extend(Contents(Step(c, b).out), Concat(Values(bs[1..], LeadingOk(bs[1..]))))
            == Extend(Contents(c.out), Concat(Values(bs, LeadingOk(bs))))
  {
    var m := LeadingOk(bs);
    var rest := Values(bs[1..], m - 1);
    ValuesCons(bs, m);
    assert ([b] + rest)[1..] == rest;
    assert Concat(Values(bs, m)) == Extend(b, Concat(rest));
    ExtendAssoc(Contents(c.out), b, Concat(rest));
  }

  /** The merge loop as written. It completes only when no source failed;
      otherwise it stops either at the first failing source, with that
      source's error, or earlier, when a second dataset creation is tried. */
  function MergeAsWritten(c: Cursor, bs: seq<Result<Store>>): (r: Run<Cursor>)
    requires Valid(c) && AllAligned(bs)
    ensures Valid(r.state)
    ensures r.failure.None? ==> LeadingOk(bs) == |bs|
    ensures r.failure.Some? && r.failure != Some(DatasetExists) ==>
              LeadingOk(bs) < |bs| && r.failure == Some(bs[LeadingOk(bs)].error)
    ensures r.state.row1 >= c.row1
    decreases |bs|
  {
    if |bs| == 0 then Run(c, None)
    else
      match bs[0]
      case Err(e) => Run(c, Some(e))
      case Ok(b) =>
        match StepAsWritten(c, b)
        case Err(e) => Run(c, Some(e))
        case Ok(c') =>
          assert LeadingOk(bs) == 1 + LeadingOk(bs[1..]);
          MergeAsWritten(c', bs[1..])
  }

  /** What the loop as written leaves behind. Unless it stops with the
      dataset-exists error, it is the corrected loop. When it does stop with
      that error, it stops at a source k no later than the first failing one,
      and the output holds the old content followed by the batches before k. */
  lemma {:induction false} MergeAsWrittenOutput(c: Cursor, bs: seq<Result<Store>>)
    requires Valid(c) && AllAligned(bs)
    ensures var r := MergeAsWritten(c, bs);
            && (r.failure != Some(DatasetExists) ==> r == Merge(c, bs))
            && (r.failure == Some(DatasetExists) ==>
                  exists k | 0 <= k <= LeadingOk(bs) ::
                    Contents(r.state.out) == Extend(Contents(c.out), Concat(Values(bs, k))))
    decreases |bs|
  {
    if |bs| == 0 || bs[0].Err? {
      assert Values(bs, 0) == [];
      assert Extend(Contents(c.out), Concat([])) == Contents(c.out);
    } else {
      var b := bs[0].value;
      assert AllAligned(bs[1..]) by {
        forall j | 0 <= j < |bs| - 1 && bs[1..][j].Ok? ensures bs[1..][j].value.Aligned() {
          assert bs[1..][j] == bs[j + 1];
        }
      }
      assert LeadingOk(bs) == 1 + LeadingOk(bs[1..]);
      match StepAsWritten(c, b)
      case Err(_) =>
        assert MergeAsWritten(c, bs).state == c;
        assert Values(bs, 0) == [];
        assert Extend(Contents(c.out), Concat([])) == Contents(c.out);
      case Ok(c') =>
        MergeAsWrittenOutput(c', bs[1..]);
        var r := MergeAsWritten(c', bs[1..]);
        assert c' == Step(c, b);
        assert MergeAsWritten(c, bs) == r;
        assert Merge(c, bs) == Merge(c', bs[1..]);
        if r.failure == Some(DatasetExists) {
          var k :| 0 <= k <= LeadingOk(bs[1..]) &&
                   Contents(r.state.out) == Extend(Contents(c'.out), Concat(Values(bs[1..], k)));
          PrefixShift(c, bs, b, k);
        }
    }
  }

  /** The first k batches after the first one, written after it, are the
      first k + 1 batches. */
  lemma PrefixShift(c: Cursor, bs: seq<Result<Store>>, b: Store, k: nat)
    requires Valid(c) && |bs| > 0 && bs[0] == Ok(b) && b.Aligned()
    requires k <= LeadingOk(bs[1..])
    ensures k + 1 <= LeadingOk(bs)
    ensures Extend(Contents(Step(c, b).out), Concat(Values(bs[1..], k)))
            == Extend(Contents(c.out), Concat(Values(bs, k + 1)))
  {
    assert LeadingOk(bs) == 1 + LeadingOk(bs[1..]);
    var rest := Values(bs[1..], k);
    ValuesCons(bs, k + 1);
    assert ([b] + rest)[1..] == rest;
    assert Concat(Values(bs, k + 1)) == Extend(b, Concat(rest));
    ExtendAssoc(Contents(c.out), b, Concat(rest));
  }

  /** When every source that is written has at least one record, the
      as-written loop is the corrected one. */
  lemma {:induction false} MergeAgrees(c: Cursor, bs: seq<Result<Store>>)
    requires Valid(c) && AllAligned(bs)
    requires c.out.None? || c.row1 > 0
    requires forall j | 0 <= j < |bs| && bs[j].Ok? :: |bs[j].value.iq| > 0
    ensures MergeAsWritten(c, bs) == Merge(c, bs)
    decreases |bs|
  {
    if |bs| > 0 && bs[0].Ok? {
      MergeAgrees(Step(c, bs[0].value), bs[1..]);
    }
  }

  /** A merge into a fresh output whose written batches are never empty and
      whose failing batches all raise e: the as-written loop is the corrected
      one, it fails exactly when some batch fails, and the output holds the
      batches before the first failure. */
  lemma MergeFromStart(bs: seq<Result<Store>>, e: Error)
    requires AllAligned(bs)
    requires forall j | 0 <= j < |bs| && bs[j].Ok? :: |bs[j].value.iq| > 0
    requires forall j | 0 <= j < |bs| && bs[j].Err? :: bs[j].error == e
    ensures MergeAsWritten(Start, bs) == Merge(Start, bs)
    ensures Merge(Start, bs).failure.None? <==> forall j | 0 <= j < |bs| :: bs[j].Ok?
    ensures Merge(Start, bs).failure.Some? ==> Merge(Start, bs).failure == Some(e)
    ensures Contents(Merge(Start, bs).state.out) == Concat(Values(bs, LeadingOk(bs)))
    ensures Contents(Merge(Start, bs).state.out).Aligned()
  {
    MergeAgrees(Start, bs);
    MergeFailure(bs, e);
    var vs := Values(bs, LeadingOk(bs));
    ConcatAligned(vs);
    assert Extend(Empty, Concat(vs)) == Concat(vs);
  }

  /** The failure a merge from a fresh output ends with. */
  lemma MergeFailure(bs: seq<Result<Store>>, e: Error)
    requires AllAligned(bs)
    requires forall j | 0 <= j < |bs| && bs[j].Err? :: bs[j].error == e
    ensures Merge(Start, bs).failure.None? <==> forall j | 0 <= j < |bs| :: bs[j].Ok?
    ensures Merge(Start, bs).failure.Some? ==> Merge(Start, bs).failure == Some(e)
  {
    var r := Merge(Start, bs);
    LeadingOkFull(bs);
    if r.failure.Some? {
      var m := LeadingOk(bs);
      assert bs[m].Err? && r.failure == Some(bs[m].error);
    }
  }

  /** An empty first source followed by any other source: the as-written
      loop fails creating the datasets a second time, the corrected one
      merges both. */
  lemma EmptyFirstSourceFails(b0: Store, b1: Store)
    requires b0.Aligned() && b1.Aligned() && |b0.iq| == 0
    ensures MergeAsWritten(Start, [Ok(b0), Ok(b1)]).failure == Some(DatasetExists)
    ensures Merge(Start, [Ok(b0), Ok(b1)]).failure == None
  {
    var c1 := Step(Start, b0);
    assert c1.row1 == 0 && c1.out.Some?;
    assert [Ok(b0), Ok(b1)][1..] == [Ok(b1)];
  }

  // ---------------------------------------------------------------------------
  // data_processing/merge_filtered.py: the mixed-recordings merge

  /** One HDF5 source file and its three datasets (its first three keys). */
  datatype Source = Source(path: string, data: Store)

  const MixedRecordings: string := "dataset_mixed_recordings_1024.h5"

  predicate OccursAt(s: string, sub: string, i: nat) {
    i + |sub| <= |s| && s[i..i + |sub|] == sub
  }

  /** Python's substring test `sub in s`. */
  predicate Contains(s: string, sub: string)
    ensures |sub| == 0 ==> Contains(s, sub)
    ensures Contains(s, sub) ==> |sub| <= |s|
  {
    assert |sub| == 0 ==> OccursAt(s, sub, 0);
    exists i: nat | i <= |s| :: OccursAt(s, sub, i)
  }

  /** What one source contributes: its first two records (`[:2]`), with
      preprocessing.scale applied to each iq record of the mixed recordings
      only. */
  function MixedBatch(src: Source, scale: IqRecord -> IqRecord): (b: Store)
    ensures |b.iq| == (if |src.data.iq| < 2 then |src.data.iq| else 2)
    ensures b.labels == Take(src.data.labels, 2) && b.snrs == Take(src.data.snrs, 2)
    ensures forall k | 0 <= k < |b.iq| ::
              b.iq[k] == (if Contains(src.path, MixedRecordings) then scale(src.data.iq[k]) else src.data.iq[k])
    ensures src.data.Aligned() ==> b.Aligned()
  {
    var iq := Take(src.data.iq, 2);
    var normIq := if Contains(src.path, MixedRecordings)
                  then seq(|iq|, k requires 0 <= k < |iq| => scale(iq[k]))
                  else iq;
    Store(normIq, Take(src.data.labels, 2), Take(src.data.snrs, 2))
  }

  function MixedBatches(sources: seq<Source>, scale: IqRecord -> IqRecord): (bs: seq<Result<Store>>)
    ensures |bs| == |sources|
    ensures forall j | 0 <= j < |sources| :: bs[j] == Ok(MixedBatch(sources[j], scale))
    ensures (forall j | 0 <= j < |sources| :: sources[j].data.Aligned()) ==> AllAligned(bs)
  {
    seq(|sources|, j requires 0 <= j < |sources| => Ok(MixedBatch(sources[j], scale)))
  }

  /** A concatenation of batches of at most two records each has at most
      two records per batch. */
  lemma {:induction false} ConcatAtMostTwo(bs: seq<Store>)
    requires forall j | 0 <= j < |bs| :: |bs[j].iq| <= 2
    ensures |Concat(bs).iq| <= 2 * |bs|
  {
    if |bs| > 0 {
      ConcatAtMostTwo(bs[1..]);
    }
  }

  /** merge_hdfset (mixed recordings), corrected to create the datasets only
      once: no source can fail, the output is the sources' batches in order,
      row1 ends at the output length, and each source adds at most two
      records. When every source has a record, the loop as written gives the
      same run; an empty first source followed by another makes it raise. */
  function MergeHdfsetMixed(sources: seq<Source>, scale: IqRecord -> IqRecord): (r: Run<Cursor>)
    requires forall j | 0 <= j < |sources| :: sources[j].data.Aligned()
    ensures r.failure.None?
    ensures Contents(r.state.out)
            == Concat(seq(|sources|, j requires 0 <= j < |sources| => MixedBatch(sources[j], scale)))
    ensures Contents(r.state.out).Aligned()
    ensures r.state.row1 == |Contents(r.state.out).iq| <= 2 * |sources|
    ensures (forall j | 0 <= j < |sources| :: |sources[j].data.iq| > 0) ==>
              r == MergeAsWritten(Start, MixedBatches(sources, scale))
    ensures |sources| >= 2 && |sources[0].data.iq| == 0 ==>
              MergeAsWritten(Start, MixedBatches(sources, scale)).failure == Some(DatasetExists)
  {
    MixedMerge(sources, scale);
    MixedAsWritten(sources, scale);
    Merge(Start, MixedBatches(sources, scale))
  }

  /** The corrected merge of the mixed-recordings batches. */
  lemma MixedMerge(sources: seq<Source>, scale: IqRecord -> IqRecord)
    requires forall j | 0 <= j < |sources| :: sources[j].data.Aligned()
    ensures var r := Merge(Start, MixedBatches(sources, scale));
            && r.failure.None?
            && Contents(r.state.out)
               == Concat(seq(|sources|, j requires 0 <= j < |sources| => MixedBatch(sources[j], scale)))
            && Contents(r.state.out).Aligned()
            && r.state.row1 == |Contents(r.state.out).iq| <= 2 * |sources|
  {
    var bs := MixedBatches(sources, scale);
    var vs := seq(|sources|, j requires 0 <= j < |sources| => MixedBatch(sources[j], scale));
    LeadingOkAll(bs);
    assert Values(bs, |bs|) == vs;
    assert Extend(Empty, Concat(vs)) == Concat(vs);
    ConcatAtMostTwo(vs);
  }

  /** How the mixed-recordings loop as written relates to the corrected one. */
  lemma MixedAsWritten(sources: seq<Source>, scale: IqRecord -> IqRecord)
    requires forall j | 0 <= j < |sources| :: sources[j].data.Aligned()
    ensures (forall j | 0 <= j < |sources| :: |sources[j].data.iq| > 0) ==>
              Merge(Start, MixedBatches(sources, scale)) == MergeAsWritten(Start, MixedBatches(sources, scale))
    ensures |sources| >= 2 && |sources[0].data.iq| == 0 ==>
              MergeAsWritten(Start, MixedBatches(sources, scale)).failure == Some(DatasetExists)
  {
    var bs := MixedBatches(sources, scale);
    if forall j | 0 <= j < |sources| :: |sources[j].data.iq| > 0 {
      MergeAgrees(Start, bs);
    }
    if |sources| >= 2 && |sources[0].data.iq| == 0 {
      EmptyFirstMixedFails(sources, scale);
    }
  }

  /** An empty first source leaves row1 at 0 after creating the datasets, so
      the second source's creation raises. */
  lemma EmptyFirstMixedFails(sources: seq<Source>, scale: IqRecord -> IqRecord)
    requires forall j | 0 <= j < |sources| :: sources[j].data.Aligned()
    requires |sources| >= 2 && |sources[0].data.iq| == 0
    ensures MergeAsWritten(Start, MixedBatches(sources, scale)).failure == Some(DatasetExists)
  {
    var bs := MixedBatches(sources, scale);
    var c1 := Step(Start, bs[0].value);
    assert c1.row1 == 0 && c1.out.Some?;
    assert bs[1..][0] == bs[1];
  }
}
