# RF_Modulation_Classifier: dataset bookkeeping, modelled in Dafny

The RF modulation classifier trains on IQ recordings stored as HDF5 files.
Each file holds three parallel datasets: `iq` (one recording per record),
`labels` (one one-hot class vector per record) and `snrs` (one signal-to-noise
ratio per record). Record i of each array describes the same recording. The
data-preparation scripts build these files, and the Lightning module reads them
back for training. This project models that record bookkeeping:

- **Appending files to one store** (`merge_files`, module `AppendStore`). Each
  `.npz` file's rows are processed, then appended: resize, then write the tail.
  The rows written so far stay as they are.
- **Merging HDF5 stores through a `row1` cursor** (`merge_hdfset`, modules
  `CursorMerge` and `RootMerge`). The first source creates the datasets. Each
  source is written at `[row1, row1 + dslen)`, with a resize when that range
  does not fit.
- **Re-slicing recordings** (`sample_from_h5`, module `Segment`). A recording of
  1024 IQ pairs becomes 4 recordings of 256 pairs. Each one carries the label
  and the int8 SNR of its source row.
- **Label re-indexing** (`sample_deepsig` and the root `merge_hdfset`, module
  `Relabel`).
  - `sample_deepsig` keeps the DeepSig classes BPSK, QPSK, 16QAM and 64QAM and
    one-hot encodes them by their position in `label_list`.
  - The root merge drops five DeepSig classes and relabels the rest as one
    "other" class, a 9-wide one-hot vector with its 1 at position 8.
  - It widens every other source's labels by a zero column.
- **The train/validation/test partition** (`prepare_data` and `inference`, module
  `Partition`). A permutation of the indices is cut at `floor(f * n)` points.
- **Aligned reads** (`DatasetFromHDF5` and `MyDataset`, module `Dataset`).

Module `Records` holds the shared data model:

- the `Store` of three sequences, and `Extend`, the append of one store to
  another;
- the Python and numpy helpers the scripts rely on (slicing, fancy indexing,
  the int8 cast);
- the exceptions the code can raise.

A script that raises part-way is modelled as a `Run`: the file state written
so far, together with the exception.

Calls whose code is not part of this model become function-typed parameters:
`sort_matrix_entries`, `encode_labels`, `dl.label_idx`, `preprocessing.scale`,
`featurize` and Python's `int()` on a string. The seeded `np.random.shuffle`
becomes a permutation parameter. Whether the output file already exists
(`os.path.exists`) becomes an `Option<Store>` parameter.

There are two copies of `merge_filtered.py`: `data_processing/merge_filtered.py`
and the root `merge_filtered.py`.

- Their `merge_files` are identical, and the table cites the `data_processing`
  copy. `AppendStore.MergeFilesAsWritten` models the loop as written.
  `AppendStore.MergeFiles` is the corrected loop, which skips files without
  records (see "Findings").
- Their `merge_hdfset` functions differ. The `data_processing` one takes two
  records per source and scales only the mixed recordings.
  `CursorMerge.MergeAsWritten` models its loop as written, and
  `CursorMerge.MergeHdfsetMixed` is the corrected loop, which creates the
  datasets only once. `RootMerge.MergeHdfsetUn` models the root one, which
  filters and relabels; there the two loops agree.
- Their `sample_from_h5` functions differ only in the cut-off.
  `Segment.SampleFromH5` takes it as `Some(CutOff)` or `None`.

## Model

| member | source | states |
|---|---|---|
| Records.ToInt8 | data_processing/merge_filtered.py:219-220 | `astype('int8')` gives a value in [-128, 128) congruent to the input mod 256, and leaves in-range values unchanged |
| Records.Take | data_processing/merge_filtered.py:80-82 | `[:n]` is a prefix of length min(n, len) |
| Records.TailStart | data_processing/merge_filtered.py:57 | the slice `[-k:]` starts k from the end when k > 0, but at 0 when k == 0 |
| Records.Select | data_processing/merge_filtered.py:207 | fancy indexing `a[idx]` has one item per index, and item k is `a[idx[k]]` |
| Records.IndicesWhere | data_processing/merge_filtered.py:205 | the comprehension's indices are in range, strictly increasing, all satisfy the test, and every index that satisfies it is listed |
| Records.Extend | data_processing/merge_filtered.py:55-61 | an append grows each array by the batch's row count and keeps the three arrays equally long |
| Records.ExtendLayout | data_processing/merge_filtered.py:55-61 | after an append the earlier rows of every array are unchanged and the batch's rows form the tail, in order |
| Records.ConcatAligned | data_processing/merge_filtered.py:38-64 | appending aligned batches one after another keeps the three arrays equally long |
| Records.ConcatLabelCount | data_processing/merge_filtered.py:38-64 | the label count of the appended batches is the sum of their label counts |
| Records.FlattenSingletons | data_processing/merge_filtered.py:211-216 | joining one-item lists, one per kept record, gives one item per record, in record order |
| AppendStore.Rows | data_processing/merge_filtered.py:39-45 | a file contributes `sort_matrix_entries` of each iq record in order, `encode_labels` of its class names, and its SNRs unchanged; the rows are aligned when the file's arrays are |
| AppendStore.Process | data_processing/merge_filtered.py:44-45 | `np.apply_along_axis` raises exactly when the file has no records; otherwise the file yields its rows, at least one |
| AppendStore.TailWriteAsWritten | data_processing/merge_filtered.py:55-61 | resize then `ds[-k:] = rows` succeeds iff there are rows or the dataset is empty, and then appends them; otherwise it is a shape error |
| AppendStore.TailWriteAgrees | data_processing/merge_filtered.py:55-61 | the resize-then-`[-k:]` write is exactly an append whenever the file has rows or the dataset is empty |
| AppendStore.TailWriteZeroRowsFails | data_processing/merge_filtered.py:55-61 | appending zero rows to a non-empty dataset writes zero rows into `[-0:]`, the whole dataset, and fails |
| AppendStore.AppendAsWritten | data_processing/merge_filtered.py:55-61 | the append branch succeeds iff no dataset gets zero rows while non-empty, and then is the append of the batch; otherwise it is a shape error |
| AppendStore.EmptyFileAppendFails | data_processing/merge_filtered.py:55-61 | a store of one record and a batch of zero records make the append branch raise |
| AppendStore.AppendAgrees | data_processing/merge_filtered.py:55-61 | the append branch as written equals Extend when the file has records or the store is empty |
| AppendStore.FileStep | data_processing/merge_filtered.py:38-61 | one iteration raises the `apply_along_axis` error for a file without records; for an aligned file with records the output becomes the old content followed by the file's rows |
| AppendStore.MergeFilesAsWritten | data_processing/merge_filtered.py:38-64 | on aligned files the loop completes iff no file is empty, otherwise it stops with the `apply_along_axis` error, and the store holds the old content followed by the rows of every file before the first empty one |
| AppendStore.EmptyNpzAborts | data_processing/merge_filtered.py:27-45 | an empty file followed by a one-record file: the announced total is 1, but the loop as written raises on the first file and writes nothing |
| AppendStore.Batch | data_processing/merge_filtered.py:39-45 | with empty files skipped, a file contributes nothing iff it has no records, and otherwise its rows |
| AppendStore.MergeStep | data_processing/merge_filtered.py:47-61 | one file creates the store when there is no output yet and is appended otherwise; either way the content is the old content followed by the rows |
| AppendStore.Batches | data_processing/merge_filtered.py:38-45 | one batch per file, in file order |
| AppendStore.TotalSamplesIsLabelCount | data_processing/merge_filtered.py:27-34 | on aligned files the "samples accounted for" total equals the number of label rows the files contribute |
| AppendStore.AppendAll | data_processing/merge_filtered.py:38-64 | the loop ends with the earlier content followed by every batch in order; an output exists unless there was none and every batch was empty |
| AppendStore.AlignedMerge | data_processing/merge_filtered.py:27-64 | on aligned files the store grows by the announced total and stays aligned |
| AppendStore.AsWrittenAgrees | data_processing/merge_filtered.py:38-64 | on aligned files with records the loop as written raises nothing and builds the same store as the corrected loop |
| AppendStore.MergeFiles | data_processing/merge_filtered.py:12-64 | corrected to skip empty files: the store ends as the earlier content followed by every file's rows in order; on aligned files its label count grew by the announced total and it stays aligned; when no file is empty the loop as written gives the same output without raising |
| CursorMerge.Resize | data_processing/merge_filtered.py:126-130 | resize sets the length and keeps the rows below it |
| CursorMerge.Overwrite | data_processing/merge_filtered.py:122-124 | a slice assignment replaces exactly the rows `[at, at + len)` and keeps the length |
| CursorMerge.Zeros | data_processing/merge_filtered.py:118-120 | `create_dataset(shape=(n, ...))` makes n aligned records |
| CursorMerge.WriteRows | data_processing/merge_filtered.py:121-131 | the write resizes to `row1 + dslen` only when the rows do not fit, keeps the rows before row1, and puts the batch at `[row1, row1 + dslen)` |
| CursorMerge.WriteAtEndIsAppend | data_processing/merge_filtered.py:121-131 | with the cursor at the end of the store, the cursor write is the same append as merge_files' tail write |
| CursorMerge.Step | data_processing/merge_filtered.py:117-132 | one corrected source: the cursor stays at the store length, advances by dslen, and the content is the old content followed by the batch |
| CursorMerge.StepAsWritten | data_processing/merge_filtered.py:117-120 | as written, a source fails exactly when row1 is 0 and the datasets exist; otherwise it is the corrected step |
| CursorMerge.MergeAsWritten | data_processing/merge_filtered.py:75-134 | the loop as written completes only when no source failed; otherwise it stops with the first failing source's exception or with the dataset-exists error; row1 never decreases |
| CursorMerge.MergeAsWrittenOutput | data_processing/merge_filtered.py:75-134 | unless the loop as written stops with the dataset-exists error it is the corrected loop; when it does, it stops at a source no later than the first failing one, and the output holds the old content followed by the batches before that source |
| CursorMerge.Merge | data_processing/merge_filtered.py:72-134 | the run stops at the first failing source with that source's exception; the output holds the batches before it, in order; row1 equals the output length |
| CursorMerge.MergeAgrees | data_processing/merge_filtered.py:117-132 | the loop as written equals the corrected loop when no written source is empty |
| CursorMerge.MergeFromStart | merge_filtered.py:134-149 | from a fresh output, with non-empty batches and failures raising e: as written equals corrected, the run fails iff some batch fails, with e, and the output is the aligned concatenation of the batches before the failure |
| CursorMerge.EmptyFirstSourceFails | data_processing/merge_filtered.py:117-120 | an empty first source makes the as-written loop re-create the datasets and fail; the corrected loop merges both sources |
| CursorMerge.Contains | data_processing/merge_filtered.py:105 | Python's `sub in s`: the empty string is in every string, and a contained string is no longer than the one holding it |
| CursorMerge.MixedBatch | data_processing/merge_filtered.py:80-110 | a source contributes at most its first two records; iq is scaled only when the path contains `dataset_mixed_recordings_1024.h5`; labels and SNRs are taken unchanged |
| CursorMerge.MergeHdfsetMixed | data_processing/merge_filtered.py:67-134 | corrected to create the datasets once: no source fails; the output is every source's batch in order, aligned; row1 equals the output length, which is at most two per source; when every source has a record the loop as written gives the same run, and an empty first source followed by another makes it raise |
| CursorMerge.MixedAsWritten | data_processing/merge_filtered.py:117-132 | the mixed-recordings loop as written equals the corrected one when every source has a record, and fails with the dataset-exists error after an empty first source |
| Relabel.ClassPosition | data_processing/merge_filtered.py:180-182 | BPSK, QPSK, 16QAM and 64QAM each occur exactly once among the classes, at 3, 4, 12 and 14 |
| Relabel.LabelListMembers | data_processing/merge_filtered.py:186-191 | label_list holds exactly the class positions whose name is wanted: every item is one, and every one is listed |
| Relabel.LabelListOfUnique | data_processing/merge_filtered.py:188-191 | when every wanted name occurs once, the nested loop lists the wanted names' positions in wanted order |
| Relabel.LabelListValue | data_processing/merge_filtered.py:180-191 | label_list is [3, 4, 12, 14], the positions of BPSK, QPSK, 16QAM and 64QAM in that order |
| Relabel.OneHot | data_processing/merge_filtered.py:240-243 | `one_hot(id)` is 4 wide with its single 1 at id (negative ids counting from the end) |
| Relabel.KeptPosition | data_processing/merge_filtered.py:212-215 | in a list without repeats a listed class index matches exactly one l, its position, and an unlisted one matches none |
| Relabel.Remap | data_processing/merge_filtered.py:212-215 | the inner loop appends exactly one vector, `one_hot(l)` at the class's position l, for a listed class, and nothing otherwise |
| Relabel.KeptIndices | data_processing/merge_filtered.py:204-205 | idx_class lists a record iff its class index is in label_list, in increasing order |
| Relabel.Position | data_processing/merge_filtered.py:213-214 | every kept class index has a position l with `label_list[l]` equal to it |
| Relabel.RemapAll | data_processing/merge_filtered.py:211-216 | the relabelling loop gives one vector per kept record, `one_hot(l)` where `label_list[l]` is that record's class |
| Relabel.RemapAllPositions | data_processing/merge_filtered.py:211-216 | with label_list itself, record j's new label is one-hot at its class's position |
| Relabel.DeepsigRows | data_processing/merge_filtered.py:204-220 | iq, labels and snrs are filtered by the same index list in order; each label is the one-hot of its class's position; SNRs are cast to int8 |
| Relabel.SampleDeepsig | data_processing/merge_filtered.py:204-227 | the file succeeds iff some record is of a kept class, and then yields the filtered rows; with none kept, reading the label width raises |
| Relabel.SampleDeepsigFiles | data_processing/merge_filtered.py:193-235 | row1 never advances: one source into a fresh file writes its rows or raises its exception, and a later source fails because the datasets exist; two sources that both preprocess into a fresh file leave the first one's rows and the dataset-exists error |
| Relabel.IsHdf5 | merge_filtered.py:102 | `dataset[-4:] == "hdf5"` holds iff the path is at least 4 long and ends in `hdf5` |
| Relabel.SurvivingIndices | merge_filtered.py:104-105 | idx_class lists a record iff its class index is not in mods_skip {8, 9, 18, 19, 23}, in increasing order |
| Relabel.OtherRows | merge_filtered.py:102-111 | a `.hdf5` source keeps the surviving records, labelled OtherLabel, with iq (scaled) and int8 SNRs filtered by the same indices |
| Relabel.WidenedRows | merge_filtered.py:112-124 | any other source keeps every record, its label with a 0 appended, its iq scaled and its SNRs unchanged |
| Relabel.UnBatch | merge_filtered.py:102-130 | a `.hdf5` source succeeds iff some record survives, any other iff it has records, each then yielding its rows; otherwise reading the label width raises |
| Relabel.UnBatchLabelWidth | merge_filtered.py:109-113 | OtherLabel is 9 wide with its 1 at 8, and with 8-wide source labels every preprocessed label is 9 wide |
| RootMerge.UnBatches | merge_filtered.py:93-130 | one preprocessed batch per source, in order, each aligned; a successful one is never empty, and a failure is always the `label_data.shape[1]` IndexError (LabelArrayNotTwoD) |
| RootMerge.MergeHdfsetUn | merge_filtered.py:79-151 | the loop as written equals the corrected loop; it fails iff some source's preprocessing fails, with the `label_data.shape[1]` IndexError (LabelArrayNotTwoD); the output is the aligned concatenation of the batches before it; row1 is the output length |
| RootMerge.MergedLabelWidth | merge_filtered.py:109-136 | with 8-wide labels in every non-DeepSig source, every written label is 9 wide, the width of the labels dataset |
| Segment.SegmentConstants | data_processing/merge_filtered.py:140-143 | samples_per_segment is 1024 / 256 = 4 and cut_off is 256 * 4 = 1024 |
| Segment.SplitEqual | data_processing/merge_filtered.py:148 | `np.split` succeeds iff parts divides the length, giving that many pieces of equal width |
| Segment.SplitRoundTrip | data_processing/merge_filtered.py:148 | joining the pieces gives back the row |
| Segment.BroadcastLabel | data_processing/merge_filtered.py:144-149 | an 8-wide label is copied into each of the 4 buffer rows, and a 1-wide one fills every cell; any other width raises |
| Segment.SegmentRow | data_processing/merge_filtered.py:147-150 | a row succeeds iff the (cut-off) row splits evenly, its label broadcasts, and its label and SNR exist; the 4 samples then join back into the row, carry the broadcast label and the int8 SNR, and the first failing step names the error |
| Segment.SegmentAppend | data_processing/merge_filtered.py:161-168 | the tail write of 4 samples is a plain append |
| Segment.WriteSegment | data_processing/merge_filtered.py:152-168 | each row's samples are written after the existing content, whether the file is created or appended |
| Segment.WriteAll | data_processing/merge_filtered.py:147-168 | the row loop stops at the first failing row with its error; the output is the old content followed by the samples of the rows before it, 4 per row |
| Segment.SampleFromH5 | data_processing/merge_filtered.py:137-168 | sample_from_h5 writes the samples of every row before the first failing one, in order; a run without an exception writes 4 samples per source row |
| Segment.SampleLayout | data_processing/merge_filtered.py:147-168 | output record 4 * row + p is piece p of source row `row`, with that row's label and SNR |
| Partition.FloorTimes | models/pytorch_lightning/py_lightning.py:386-387 | `int(floor(f * n))` is the largest r with r * den <= num * n |
| Partition.Range | models/pytorch_lightning/py_lightning.py:385 | `list(range(n))` holds k at position k |
| Partition.Slice | models/pytorch_lightning/py_lightning.py:397 | Python slicing with clamped bounds: the plain subsequence when the bounds are ordered and in range, the suffix from a when only b is past the end, empty when they cross or a is past the end |
| Partition.DefaultWorkers | models/pytorch_lightning/py_lightning.py:394-395 | num_workers is present afterwards, set to 1 only when it was missing, and nothing else changes |
| Partition.ParamsBranches | models/pytorch_lightning/py_lightning.py:388-395 | the built dictionary never holds 'shuffle', so the shuffle always runs, and always holds num_workers, so the default never applies |
| Partition.SlicesRebuild | models/pytorch_lightning/py_lightning.py:397 | the valid, test and train slices, in that order, rebuild the list for any ordered split points |
| Partition.PrepareData | models/pytorch_lightning/py_lightning.py:382-397 | validation, then test, then training rebuild the shuffled index list |
| Partition.FloorSumBound | models/pytorch_lightning/py_lightning.py:386-387 | floor(f * n) + floor(g * n) <= n when f + g <= 1 |
| Partition.SplitSizes | models/pytorch_lightning/py_lightning.py:384-397 | with fractions summing to at most one, 0 <= val_split <= test_split <= n, and the slices have val_split, test_split - val_split and n - test_split indices |
| Partition.DefaultsBounded | models/pytorch_lightning/py_lightning.py:382-387 | with the default fractions 0.05 and 0.2, 0 <= val_split <= test_split <= n |
| Partition.DisjointCover | models/pytorch_lightning/py_lightning.py:385-397 | the three slices share no index, and an index lies in one of them iff it is below n |
| Partition.Inference | models/pytorch_lightning/py_lightning.py:436-449 | the partition with 0.05 and 0.2 written in rebuilds the shuffled list |
| Partition.InferenceIsPrepareData | models/pytorch_lightning/py_lightning.py:436-449 | inference's partition equals prepare_data's with the default fractions, for the same shuffle |
| Dataset.At | models/pytorch_lightning/py_lightning.py:81-83 | indexing succeeds iff -len <= i < len; a negative index counts from the end; anything else raises |
| Dataset.Len | models/pytorch_lightning/py_lightning.py:74-77 | `len(dataset)` is the label count; on an aligned file it is also the iq and snr counts |
| Dataset.GetItem | models/pytorch_lightning/py_lightning.py:79-101 | succeeds iff the index is valid for all three arrays; reads iq, label and snr at the same index, with the SNR cast to int8; returns four values iff feature_flag, the fourth being the scaled features of the data |
| Dataset.GetItemInRange | models/pytorch_lightning/py_lightning.py:74-83 | on an aligned file every index in [-len, len) succeeds, and a negative index reads the record at len + index |
| Dataset.RowFields | models/pytorch_lightning/py_lightning.py:35-38 | a row yields field 0, int of field -2 and int of field -1; a row with fewer than two fields raises an index error, a non-integer field a value error |
| Dataset.LoadCsv | models/pytorch_lightning/py_lightning.py:29-48 | loading succeeds iff every row does and otherwise raises the first failing row's error; the length is the row count; record i holds row i's fields; num_classes is the class file's line count |
| Dataset.CsvGetItem | models/pytorch_lightning/py_lightning.py:56-60 | `dataset[i]` succeeds iff -len <= i < len, and a valid non-negative i gives record i's three fields |

## Left out

- File discovery and I/O are not modelled: `os.walk` and `glob`, `np.load`, opening and closing HDF5 files, CSV reading, printing and Neptune logging. The output file's existence is a parameter; a CSV file is its list of rows; a class file is its list of lines.
- The calls whose code is not part of this model are opaque function parameters: `sort_matrix_entries`, `encode_labels`, `dl.label_idx`, `preprocessing.scale` and `featurize`. `encode_labels` is required to return one row per label. `np.apply_along_axis(sort_matrix_entries, axis=1)` is modelled as `sortEntries` applied to each record.
- The float fractions of `prepare_data` are exact non-negative rationals `num / den`, so `floor(f * n)` is exact; float rounding and negative fractions are not modelled. Partition.FloorSumBound and Partition.SplitSizes assume the two fractions sum to at most one, as the defaults do.
- The seeded `np.random.shuffle` is a permutation parameter; the particular permutation seed 4 gives is not modelled.
- float32 and `dtype="f"` casts of iq, labels and SNRs are not modelled; IQ values and label entries are mathematical reals. The int8 casts are modelled (Records.ToInt8).
- The inner shapes of the datasets are not modelled: an iq record is a sequence of (I, Q) pairs of any length, and no `maxshape` limit is checked. A write of records of the wrong width (say 512-pair samples into a dataset created with `maxshape=(None, 256, 2)`) would raise in h5py but succeeds in the model.
- Segment.SegmentRow: the label width check covers only the broadcast into the 8-wide buffer, because the labels dataset's width limit falls under the `maxshape` item above.
- The three HDF5 keys a source exposes are taken as `iq`, `labels` and `snrs` in that order (`list(h5fr.keys())[0..2]`), and `snr_data.squeeze()` is taken to give one SNR per record.
- When `create_dataset` or a write raises part-way through a source, the partial state of that source's write is not modelled: a `Run` keeps the file as it was before the failing source.
- AppendStore.EmptyFileAppendFails: shows the append branch on its own. In `merge_files` a file without records never reaches it, because `np.apply_along_axis` at line 44 raises first (AppendStore.FileStep).
- Sources and files whose `iq`, `labels` and `snrs` arrays differ in length are outside the contracts of the members below, which require equally long arrays. For such inputs the program can behave differently: in the root `merge_hdfset`, a source with an empty iq array but a non-empty labels array passes the `label_data.shape[1]` read with dslen 0, leaves row1 at 0, and makes the next source re-create the datasets.
- RootMerge.MergeHdfsetUn, RootMerge.UnBatches, RootMerge.MergedLabelWidth: require every source's three arrays to be equally long.
- CursorMerge.MergeHdfsetMixed: requires every source's three arrays to be equally long.
- Relabel.SampleDeepsig, Relabel.SampleDeepsigFiles, Relabel.DeepsigRows: require the source's three arrays to be equally long.
- Relabel.UnBatch, Relabel.OtherRows, Relabel.WidenedRows, Relabel.UnBatchLabelWidth: require the source's three arrays to be equally long.
- Dataset.GetItemInRange: requires the file's three arrays to be equally long; Dataset.GetItem itself has no such requirement.
- AppendStore.MergeFilesAsWritten: the contract covers files whose three arrays have the same length. For other files the function computes the outcome, such as a labels tail write that hits `ds[-0:]`, but the contract does not describe it.
- CursorMerge.MergeHdfsetMixed: the loop as written is related to the corrected one in two cases only: every source has a record, or an empty first source is followed by another source. For other mixes, such as an empty source after a non-empty one, CursorMerge.MergeAsWrittenOutput describes the as-written run: it is the corrected one unless it stops with the dataset-exists error.
- Dataset.GetItem: `featurize` and `preprocessing` are taken to be supplied. As written, `py_lightning.py` binds neither: the import at line 19 is commented out. So the `feature_flag` branch raises a NameError at line 88.
- `__getitem__` reads with h5py's integer indexing, taken to accept negative indices as Python lists do (Dataset.At).
- `hdf_to_csv` is not modelled: it calls `xgb.mod_fix`, which is not part of this model, and pandas.
- The CNN, its training, validation and test steps, the epoch-end averaging, the confusion matrix, the DataLoaders and samplers, and `data_processing/image_dataloader.py` are not modelled: they are tensor numerics and library plumbing with no record bookkeeping.

## Findings

| source | as written | input that shows it | evidently intended | confidence | as-written member | corrected member |
|---|---|---|---|---|---|---|
| data_processing/merge_filtered.py:38-45 | every file's matrix goes through `np.apply_along_axis(sort_matrix_entries, axis=1, arr=iq)`, with no check for a file without records | an `.npz` file with zero records followed by one with a record: `apply_along_axis` cannot iterate over an empty axis and raises, so the merge stops before writing anything, although the announced total is one record | skip files without records | low, not executed | AppendStore.EmptyNpzAborts | AppendStore.MergeFiles |
| data_processing/merge_filtered.py:117-120 | the datasets are created whenever `row1 == 0`, and row1 only advances by the rows written | a first source with zero records leaves row1 at 0, so the second source calls `create_dataset('iq')` again, which raises because the dataset exists | create the datasets only for the first source (when the file has none) | medium, not executed | CursorMerge.EmptyFirstSourceFails | CursorMerge.MergeAgrees |

The second finding cannot occur in the root `merge_filtered.py` (lines 134-137). There, a source with no records fails earlier, when its label array's width is read. RootMerge.MergeHdfsetUn proves that the loop as written and the corrected loop agree for every list of sources whose three arrays are equally long. A source whose iq array is empty but whose labels array is not would get past the width read with dslen 0, and the next source would re-create the datasets; that case lies outside the model (see "Left out"). The first finding is also present in the root `merge_files` (merge_filtered.py:54). Because of it, a file without records never reaches the `ds[-0:]` tail write of lines 55-61; AppendStore.AppendAsWritten still models that write, which a file with records but an empty labels or snrs array would reach. `sample_from_h5` appends exactly four rows every time, so its tail write always appends (Segment.SegmentAppend). The rest of the model uses the corrected definitions: `AppendStore.MergeFiles` for the file loop, `Records.Extend` for appends and `CursorMerge.Step` for the cursor write.
