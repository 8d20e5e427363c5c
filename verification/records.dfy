/**
 The data model shared by every script of the pipeline: an IQ dataset is three
 parallel on-disk arrays ('iq', 'labels', 'snrs') whose record i describes the
 same recording, plus the sequence helpers the scripts use through numpy and
 Python slicing, and the failures those calls can raise.
 */
module Records {

  /** One complex baseband sample: in-phase and quadrature component. */
  datatype IQ = IQ(i: real, q: real)

  /** One recording: the rows of an (n, 2) matrix of (I, Q) pairs. */
  type IqRecord = seq<IQ>

  /** A label vector (one-hot in every dataset the scripts write). */
  type Label = seq<real>

  /** The three datasets 'iq', 'labels' and 'snrs' of one HDF5 file. */
  datatype Store = Store(iq: seq<IqRecord>, labels: seq<Label>, snrs: seq<int>) {

    /** Record i of each array describes the same recording. */
    predicate Aligned() {
      |iq| == |labels| && |labels| == |snrs|
    }
  }

  const Empty: Store := Store([], [], [])

  datatype Option<+T> = None | Some(value: T)

  /** The exceptions the modelled code can raise. */
  datatype Error =
    | ShapeMismatch        // a write whose data does not fit the selected rows
    | DatasetExists        // create_dataset on a name the file already holds
    | UnequalSplit         // np.split that does not divide a row evenly
    | LabelShape           // a label that does not broadcast into the batch
    | LabelArrayNotTwoD    // `.shape[1]` of a label array built from an empty list
    | IndexOutOfRange      // a Python or h5py index past the end
    | NotAnInteger         // int() of a field that is not a number
    | EmptyIteration       // np.apply_along_axis over an array without records

  datatype Result<+T> = Ok(value: T) | Err(error: Error) {
    predicate IsFailure() {
      Err?
    }

    function PropagateFailure<U>(): Result<U>
      requires Err?
    {
      Err(error)
    }

    function Extract(): T
      requires Ok?
    {
      value
    }
  }

  /** A script run that stops at its first exception: the state written so
      far stays on disk, and `failure` names the exception, if any. */
  datatype Run<+S> = Run(state: S, failure: Option<Error>)

  /** The content of an output file that may not exist yet. */
  function Contents(out: Option<Store>): Store {
    match out
    case None => Empty
    case Some(s) => s
  }

  /** numpy's cast to int8 (`astype('int8')`): two's-complement wrap-around. */
  function ToInt8(x: int): (r: int)
    ensures -128 <= r < 128
    ensures (x - r) % 256 == 0
    ensures -128 <= x < 128 ==> r == x
  {
    (x + 128) % 256 - 128
  }

  /** Python's `s[:n]` for n >= 0: the first n items, or all of them if fewer. */
  function Take<T>(s: seq<T>, n: nat): (r: seq<T>)
    ensures |r| == if n < |s| then n else |s|
    ensures r <= s
  {
    if n < |s| then s[..n] else s
  }

  /** Python's `s[-k:]` for k >= 0 given as the start offset it selects:
      `-0` is `0`, so k == 0 selects the whole sequence. */
  function TailStart(len: nat, k: nat): (start: nat)
    requires k <= len
    ensures k > 0 ==> len - start == k
    ensures k == 0 ==> start == 0
  {
    if k == 0 then 0 else len - k
  }

  /** numpy fancy indexing `a[idx]` with an index list. */
  function Select<T>(s: seq<T>, idx: seq<nat>): (r: seq<T>)
    requires forall k | 0 <= k < |idx| :: idx[k] < |s|
    ensures |r| == |idx|
    ensures forall k | 0 <= k < |idx| :: r[k] == s[idx[k]]
  {
    seq(|idx|, k requires 0 <= k < |idx| => s[idx[k]])
  }

  /** The list comprehension `[i for i in range(len(xs)) if keep(xs[i])]`. */
  function IndicesWhere<T>(xs: seq<T>, keep: T -> bool): (r: seq<nat>)
    ensures forall k | 0 <= k < |r| :: r[k] < |xs| && keep(xs[r[k]])
    ensures forall k, m | 0 <= k < m < |r| :: r[k] < r[m]
    ensures forall i | 0 <= i < |xs| && keep(xs[i]) :: i in r
  {
    if |xs| == 0 then []
    else IndicesWhere(xs[..|xs| - 1], keep) + (if keep(xs[|xs| - 1]) then [|xs| - 1] else [])
  }

  /** Concatenation of a list of pieces, in order. */
  function Flatten<T>(ss: seq<seq<T>>): seq<T> {
    if |ss| == 0 then [] else Flatten(ss[..|ss| - 1]) + ss[|ss| - 1]
  }

  /** A vector of the given width whose only 1 sits at position k. */
  predicate IsOneHot(v: Label, width: nat, k: nat) {
    && |v| == width
    && k < width
    && forall j | 0 <= j < width :: v[j] == (if j == k then 1.0 else 0.0)
  }

  /** Flattening pieces of length one gives back the pieces' single items. */
  lemma {:induction false} FlattenSingletons<T>(ss: seq<seq<T>>)
    requires forall j | 0 <= j < |ss| :: |ss[j]| == 1
    ensures |Flatten(ss)| == |ss|
    ensures forall j | 0 <= j < |ss| :: Flatten(ss)[j] == ss[j][0]
  {
    if |ss| > 0 {
      FlattenSingletons(ss[..|ss| - 1]);
    }
  }

  /** Store-level append: the three arrays each grow by the batch's rows. */
  function Extend(s: Store, b: Store): (r: Store)
    ensures |r.iq| == |s.iq| + |b.iq|
    ensures |r.labels| == |s.labels| + |b.labels|
    ensures |r.snrs| == |s.snrs| + |b.snrs|
    ensures s.Aligned() && b.Aligned() ==> r.Aligned()
  {
    Store(s.iq + b.iq, s.labels + b.labels, s.snrs + b.snrs)
  }

  /** An append leaves the existing rows of every array as they were and
      puts the batch's rows, in order, at the tail. */
  lemma ExtendLayout(s: Store, b: Store)
    ensures var r := Extend(s, b);
            && r.iq[..|s.iq|] == s.iq && r.iq[|s.iq|..] == b.iq
            && r.labels[..|s.labels|] == s.labels && r.labels[|s.labels|..] == b.labels
            && r.snrs[..|s.snrs|] == s.snrs && r.snrs[|s.snrs|..] == b.snrs
  {
  }

  /** The batches appended one after another, in order. */
  function Concat(bs: seq<Store>): Store {
    if |bs| == 0 then Empty else Extend(bs[0], Concat(bs[1..]))
  }

  /** Appending one more batch at the back of a concatenation. */
  lemma {:induction false} ConcatSnoc(bs: seq<Store>, b: Store)
    ensures Concat(bs + [b]) == Extend(Concat(bs), b)
  {
    if |bs| == 0 {
      assert [b][1..] == [];
    } else {
      var rest := (bs + [b])[1..];
      assert rest == bs[1..] + [b];
      ConcatSnoc(bs[1..], b);
      calc {
        Concat(bs + [b]);
        Extend(bs[0], Concat(rest));
        Extend(bs[0], Extend(Concat(bs[1..]), b));
        { ExtendAssoc(bs[0], Concat(bs[1..]), b); }
        Extend(Extend(bs[0], Concat(bs[1..])), b);
      }
    }
  }

  lemma ExtendAssoc(a: Store, b: Store, c: Store)
    ensures Extend(a, Extend(b, c)) == Extend(Extend(a, b), c)
  {
    assert a.iq + (b.iq + c.iq) == (a.iq + b.iq) + c.iq;
    assert a.labels + (b.labels + c.labels) == (a.labels + b.labels) + c.labels;
    assert a.snrs + (b.snrs + c.snrs) == (a.snrs + b.snrs) + c.snrs;
  }

  /** Concatenating aligned batches gives an aligned store. */
  lemma {:induction false} ConcatAligned(bs: seq<Store>)
    requires forall j | 0 <= j < |bs| :: bs[j].Aligned()
    ensures Concat(bs).Aligned()
  {
    if |bs| > 0 {
      ConcatAligned(bs[1..]);
    }
  }

  /** The label count of a concatenation is the sum of the batches' counts. */
  lemma {:induction false} ConcatLabelCount(bs: seq<Store>)
    ensures |Concat(bs).labels| == SumLabels(bs)
  {
    if |bs| > 0 {
      ConcatLabelCount(bs[1..]);
    }
  }

  /** Batches whose labels all have one width concatenate to labels of that width. */
  lemma {:induction false} ConcatLabelWidth(bs: seq<Store>, w: nat)
    requires forall j, k | 0 <= j < |bs| && 0 <= k < |bs[j].labels| :: |bs[j].labels[k]| == w
    ensures forall k | 0 <= k < |Concat(bs).labels| :: |Concat(bs).labels[k]| == w
  {
    if |bs| > 0 {
      ConcatLabelWidth(bs[1..], w);
      assert Concat(bs).labels == bs[0].labels + Concat(bs[1..]).labels;
    }
  }

  /** Sum of the batches' label counts. */
  function SumLabels(bs: seq<Store>): nat {
    if |bs| == 0 then 0 else |bs[0].labels| + SumLabels(bs[1..])
  }

  /** Number of leading successes: the batches a run gets through before its
      first exception. */
  function LeadingOk(bs: seq<Result<Store>>): (m: nat)
    ensures m <= |bs|
    ensures forall j | 0 <= j < m :: bs[j].Ok?
    ensures m < |bs| ==> bs[m].Err?
  {
    if |bs| == 0 || bs[0].Err? then 0 else 1 + LeadingOk(bs[1..])
  }

  /** A list of successes is got through entirely. */
  lemma {:induction false} LeadingOkAll(bs: seq<Result<Store>>)
    requires forall j | 0 <= j < |bs| :: bs[j].Ok?
    ensures LeadingOk(bs) == |bs|
  {
    if |bs| > 0 {
      LeadingOkAll(bs[1..]);
    }
  }

  /** A run gets through every batch exactly when every batch succeeds. */
  lemma LeadingOkFull(bs: seq<Result<Store>>)
    ensures LeadingOk(bs) == |bs| <==> forall j | 0 <= j < |bs| :: bs[j].Ok?
  {
    if forall j | 0 <= j < |bs| :: bs[j].Ok? {
      LeadingOkAll(bs);
    }
  }

  /** The values of the first m batches, all successes. */
  function Values(bs: seq<Result<Store>>, m: nat): (vs: seq<Store>)
    requires m <= |bs|
    requires forall j | 0 <= j < m :: bs[j].Ok?
    ensures |vs| == m
    ensures forall j | 0 <= j < m :: vs[j] == bs[j].value
  {
    seq(m, j requires 0 <= j < m => bs[j].value)
  }
}
