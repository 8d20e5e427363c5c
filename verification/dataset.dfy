/**
 The two torch datasets: `DatasetFromHDF5` reads record i of the three
 arrays of an HDF5 store, and `MyDataset` loads a CSV file whose rows carry
 the IQ text in the first field and the label and SNR in the last two.
 */
module Dataset {
  import opened Records

  /** Python indexing `s[i]`: a negative index counts from the end; anything
      outside [-len, len) raises. */
  function At<T>(s: seq<T>, i: int): (r: Result<T>)
    ensures r.Ok? <==> -|s| <= i < |s|
    ensures r.Err? ==> r.error == IndexOutOfRange
    ensures 0 <= i < |s| ==> r == Ok(s[i])
    ensures -|s| <= i < 0 ==> r == Ok(s[|s| + i])
  {
    if 0 <= i < |s| then Ok(s[i])
    else if -|s| <= i < 0 then Ok(s[|s| + i])
    else Err(IndexOutOfRange)
  }

  // ---------------------------------------------------------------------------
  // DatasetFromHDF5

  /** Hand-computed features of one record (only built when feature_flag is set). */
  type Features = seq<real>

  /** What `__getitem__` returns: a triple, or a 4-tuple with the features. */
  datatype Item =
    | Triple(data: IqRecord, lab: Label, snr: int)
    | Quad(data: IqRecord, lab: Label, snr: int, features: Features)

  /** `len(dataset)`: the length of the labels array. */
  function Len(file: Store): (n: nat)
    ensures n == |file.labels|
    ensures file.Aligned() ==> n == |file.iq| == |file.snrs|
  {
    |file.labels|
  }

  /** `dataset[item]`: the iq, label and snr entries at the same index (read
      in that order, so the first array too short raises). With feature_flag
      the features are featurize(data) passed through preprocessing.scale.
      The SNR is cast to int8; the float32 casts of data and label leave the
      modelled values unchanged. */
  function GetItem(file: Store, item: int, featureFlag: bool,
                   featurize: IqRecord -> Features, scale: Features -> Features): (r: Result<Item>)
    ensures r.Ok? <==> -|file.iq| <= item < |file.iq| && -|file.labels| <= item < |file.labels|
                       && -|file.snrs| <= item < |file.snrs|
    ensures r.Err? ==> r.error == IndexOutOfRange
    ensures r.Ok? ==> (r.value.Quad? <==> featureFlag)
    ensures r.Ok? && 0 <= item ==>
              && r.value.data == file.iq[item]
              && r.value.lab == file.labels[item]
              && r.value.snr == ToInt8(file.snrs[item])
    ensures r.Ok? && featureFlag ==> r.value.features == scale(featurize(r.value.data))
  {
    var data :- At(file.iq, item);
    var lab :- At(file.labels, item);
    var snr :- At(file.snrs, item);
    if featureFlag then Ok(Quad(data, lab, ToInt8(snr), scale(featurize(data))))
    else Ok(Triple(data, lab, ToInt8(snr)))
  }

  /** On an aligned store every index below `len(dataset)` reads the three
      arrays at that index, and a negative index reads the same record as
      its non-negative counterpart. */
  lemma GetItemInRange(file: Store, item: int, featureFlag: bool,
                       featurize: IqRecord -> Features, scale: Features -> Features)
    requires file.Aligned()
    requires -(Len(file) as int) <= item < Len(file)
    ensures GetItem(file, item, featureFlag, featurize, scale).Ok?
    ensures item < 0 ==>
              GetItem(file, item, featureFlag, featurize, scale)
              == GetItem(file, Len(file) + item, featureFlag, featurize, scale)
  {
  }

  // ---------------------------------------------------------------------------
  // MyDataset

  /** One CSV row, already split into fields by csv.reader. */
  type Row = seq<string>

  /** The loaded dataset: the iq text, the label and the SNR of every row,
      and the number of lines in the class file when one is given. */
  datatype CsvDataset = CsvDataset(iqs: seq<string>, labels: seq<int>, snrs: seq<int>, numClasses: Option<nat>)

  /** The fields one row contributes: `line[0]`, `int(line[-2])`,
      `int(line[-1])`, in that order. `parseInt` is Python's int() on a
      string, None where int() raises. */
  function RowFields(line: Row, parseInt: string -> Option<int>): (r: Result<(string, int, int)>)
    ensures r.Ok? <==> |line| >= 2 && parseInt(line[|line| - 2]).Some? && parseInt(line[|line| - 1]).Some?
    ensures r.Ok? ==> r.value == (line[0], parseInt(line[|line| - 2]).value, parseInt(line[|line| - 1]).value)
    ensures r.Err? ==> r.error == if |line| < 2 then IndexOutOfRange else NotAnInteger
  {
    var iq :- At(line, 0);
    var labField :- At(line, -2);
    var lab :- ParseInt(labField, parseInt);
    var snrField := line[|line| - 1];  // `line[-1]`, in range once `line[-2]` is
    var snr :- ParseInt(snrField, parseInt);
    Ok((iq, lab, snr))
  }

  function ParseInt(s: string, parseInt: string -> Option<int>): (r: Result<int>)
    ensures r.Ok? <==> parseInt(s).Some?
    ensures r.Ok? ==> r.value == parseInt(s).value
    ensures r.Err? ==> r.error == NotAnInteger
  {
    match parseInt(s)
    case Some(v) => Ok(v)
    case None => Err(NotAnInteger)
  }

  /** `MyDataset(data_path, class_path)`: reads every row in order; a row
      that lacks a field or holds a non-integer label or SNR raises. The
      length is the number of rows, and record i holds row i's fields. */
  method LoadCsv(rows: seq<Row>, classLines: Option<seq<string>>, parseInt: string -> Option<int>)
    returns (r: Result<CsvDataset>)
    ensures r.Ok? <==> forall i | 0 <= i < |rows| :: RowFields(rows[i], parseInt).Ok?
    ensures r.Err? ==>
              exists i | 0 <= i < |rows| ::
                && RowFields(rows[i], parseInt) == Err(r.error)
                && forall j | 0 <= j < i :: RowFields(rows[j], parseInt).Ok?
    ensures r.Ok? ==>
              && |r.value.iqs| == |r.value.labels| == |r.value.snrs| == |rows|
              && (forall i | 0 <= i < |rows| ::
                    RowFields(rows[i], parseInt).value == (r.value.iqs[i], r.value.labels[i], r.value.snrs[i]))
              && r.value.numClasses == (if classLines.Some? then Some(|classLines.value|) else None)
  {
    var iqs, labels, snrs := [], [], [];
    var idx := 0;
    while idx < |rows|
      invariant 0 <= idx <= |rows|
      invariant |iqs| == |labels| == |snrs| == idx
      invariant forall i | 0 <= i < idx :: RowFields(rows[i], parseInt) == Ok((iqs[i], labels[i], snrs[i]))
    {
      var fields := RowFields(rows[idx], parseInt);
      if fields.Err? {
        return Err(fields.error);
      }
      var (iq, lab, snr) := fields.value;
      iqs := iqs + [iq];
      labels := labels + [lab];
      snrs := snrs + [snr];
      idx := idx + 1;
    }
    var numClasses := if classLines.Some? then Some(|classLines.value|) else None;
    r := Ok(CsvDataset(iqs, labels, snrs, numClasses));
  }

  /** `len(dataset)` and `dataset[index]` of a loaded CSV dataset. */
  function CsvLen(d: CsvDataset): nat {
    |d.labels|
  }

  function CsvGetItem(d: CsvDataset, index: int): (r: Result<(string, int, int)>)
    requires |d.iqs| == |d.labels| == |d.snrs|
    ensures r.Ok? <==> -(CsvLen(d) as int) <= index < CsvLen(d)
    ensures r.Err? ==> r.error == IndexOutOfRange
    ensures 0 <= index < CsvLen(d) ==> r == Ok((d.iqs[index], d.labels[index], d.snrs[index]))
  {
    var iq :- At(d.iqs, index);
    var lab :- At(d.labels, index);
    var snr :- At(d.snrs, index);
    Ok((iq, lab, snr))
  }
}
