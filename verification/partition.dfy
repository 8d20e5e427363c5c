/**
 The train / validation / test partition of `prepare_data` and `inference`:
 the index list 0..n-1 is shuffled, the first floor(valid_fraction * n)
 indices go to validation, the next floor(test_fraction * n) to test and the
 rest to training. The shuffle is a permutation handed in as a parameter.
 */
module Partition {

  /** A non-negative fraction num / den, standing for the float fractions the
      code is called with (0.05 and 0.2 by default). */
  datatype Fraction = Fraction(num: nat, den: nat) {
    predicate Valid() {
      den > 0
    }
  }

  const DefaultValid: Fraction := Fraction(5, 100)
  const DefaultTest: Fraction := Fraction(20, 100)

  /** `int(math.floor(f * n))` for f = num / den. */
  function FloorTimes(f: Fraction, n: nat): (r: nat)
    requires f.Valid()
    ensures r * f.den <= f.num * n < (r + 1) * f.den
  {
    (f.num * n) / f.den
  }

  /** `list(range(n))`. */
  function Range(n: nat): (r: seq<nat>)
    ensures |r| == n
    ensures forall k | 0 <= k < n :: r[k] == k
  {
    seq(n, k requires 0 <= k < n => k)
  }

  /** p lists every index below n exactly once. */
  predicate IsPermutation(p: seq<nat>, n: nat) {
    && |p| == n
    && (forall k | 0 <= k < n :: p[k] < n)
    && (forall j, k | 0 <= j < k < n :: p[j] != p[k])
    && (forall i | 0 <= i < n :: i in p)
  }

  /** Python's slice `s[a:b]` for non-negative bounds: each bound is clamped
      to the length, and an empty slice results when a >= b. */
  function Slice<T>(s: seq<T>, a: nat, b: nat): (r: seq<T>)
    ensures a <= b <= |s| ==> r == s[a..b]
    ensures a <= |s| <= b ==> r == s[a..]
    ensures b <= a || |s| <= a ==> r == []
  {
    var lo := if a < |s| then a else |s|;
    var hi := if b < |s| then b else |s|;
    if lo <= hi then s[lo..hi] else []
  }

  /** The hyper-parameters `training_params` may hold, by key. */
  type TrainingParams = map<string, int>

  /** `not ('shuffle' in training_params and not training_params['shuffle'])`,
      where an int is false exactly when it is 0. */
  predicate ShuffleTaken(tp: TrainingParams) {
    !("shuffle" in tp && tp["shuffle"] == 0)
  }

  /** `if 'num_workers' not in training_params: training_params['num_workers'] = 1`. */
  function DefaultWorkers(tp: TrainingParams): (r: TrainingParams)
    ensures "num_workers" in r
    ensures "num_workers" in tp ==> r == tp
    ensures "num_workers" !in tp ==> r["num_workers"] == 1 && forall k | k in tp :: k in r && r[k] == tp[k]
  {
    if "num_workers" !in tp then tp["num_workers" := 1] else tp
  }

  /** The dictionary both functions build. */
  function BuildParams(batchSize: int, numWorkers: int): TrainingParams {
    map["batch_size" := batchSize, "num_workers" := numWorkers]
  }

  /** The three index lists handed to the samplers. */
  datatype Split = Split(train: seq<nat>, valid: seq<nat>, test: seq<nat>)

  /** prepare_data(valid_fraction, test_fraction) on a dataset of n records. */
  function PrepareData(n: nat, perm: seq<nat>, validFraction: Fraction, testFraction: Fraction,
                       batchSize: int, numWorkers: int): (r: Split)
    requires validFraction.Valid() && testFraction.Valid()
    requires IsPermutation(perm, n)
    ensures r.valid + r.test + r.train == perm
  {
    var valSplit := FloorTimes(validFraction, n);
    var testSplit := valSplit + FloorTimes(testFraction, n);
    var tp := BuildParams(batchSize, numWorkers);
    // The `num_workers` default is never filled in (ParamsBranches), so the
    // dictionary handed to the loaders is tp itself.
    var indices := if ShuffleTaken(tp) then perm else Range(n);
    ParamsBranches(batchSize, numWorkers);
    SlicesRebuild(perm, valSplit, testSplit);
    Split(Slice(indices, testSplit, n), Slice(indices, 0, valSplit), Slice(indices, valSplit, testSplit))
  }

  /** inference: the same steps with the fractions 0.05 and 0.2 written in. */
  function Inference(n: nat, perm: seq<nat>, batchSize: int, numWorkers: int): (r: Split)
    requires IsPermutation(perm, n)
    ensures r.valid + r.test + r.train == perm
  {
    var valSplit := (5 * n) / 100;
    var testSplit := valSplit + (20 * n) / 100;
    var tp := BuildParams(batchSize, numWorkers);
    var indices := if ShuffleTaken(tp) then perm else Range(n);
    assert ShuffleTaken(tp);
    SlicesRebuild(perm, valSplit, testSplit);
    Split(Slice(indices, testSplit, n), Slice(indices, 0, valSplit), Slice(indices, valSplit, testSplit))
  }

  // ---------------------------------------------------------------------------
  // Properties

  /** The dictionary never holds 'shuffle', so the shuffle always runs, and
      always holds 'num_workers', so the default is never filled in. */
  lemma ParamsBranches(batchSize: int, numWorkers: int)
    ensures ShuffleTaken(BuildParams(batchSize, numWorkers))
    ensures DefaultWorkers(BuildParams(batchSize, numWorkers)) == BuildParams(batchSize, numWorkers)
    ensures BuildParams(batchSize, numWorkers)["num_workers"] == numWorkers
  {
  }

  /** The valid, test and train slices, in that order, rebuild the index list
      whenever the split points are ordered (clamping covers splits past the end). */
  lemma SlicesRebuild(s: seq<nat>, valSplit: nat, testSplit: nat)
    requires valSplit <= testSplit
    ensures Slice(s, 0, valSplit) + Slice(s, valSplit, testSplit) + Slice(s, testSplit, |s|) == s
  {
    var a := if valSplit < |s| then valSplit else |s|;
    var b := if testSplit < |s| then testSplit else |s|;
    assert Slice(s, 0, valSplit) == s[..a];
    assert Slice(s, valSplit, testSplit) == s[a..b];
    assert Slice(s, testSplit, |s|) == s[b..];
    assert s[..a] + s[a..b] + s[b..] == s;
  }

  /** floor(a/d1 * n) + floor(b/d2 * n) <= n when a/d1 + b/d2 <= 1. */
  lemma FloorSumBound(f: Fraction, g: Fraction, n: nat)
    requires f.Valid() && g.Valid()
    requires f.num * g.den + g.num * f.den <= f.den * g.den
    ensures FloorTimes(f, n) + FloorTimes(g, n) <= n
  {
    var x := FloorTimes(f, n);
    var y := FloorTimes(g, n);
    var d := f.den * g.den;
    MulLe(x * f.den, f.num * n, g.den);
    MulLe(y * g.den, g.num * n, f.den);
    Regroup(x, y, f.num, g.num, f.den, g.den, n);
    MulLe(f.num * g.den + g.num * f.den, d, n);
    assert (x + y) * d <= n * d;
    MulCancel(x + y, n, d);
  }

  /** The products of FloorSumBound, regrouped. */
  lemma Regroup(x: nat, y: nat, a: nat, b: nat, d1: nat, d2: nat, n: nat)
    ensures x * d1 * d2 + y * d2 * d1 == (x + y) * (d1 * d2)
    ensures a * n * d2 + b * n * d1 == (a * d2 + b * d1) * n
  {
  }

  /** a * d <= b * d with d > 0 implies a <= b. */
  lemma MulCancel(a: nat, b: nat, d: nat)
    requires d > 0 && a * d <= b * d
    ensures a <= b
  {
    if a > b {
      MulLe(b + 1, a, d);
    }
  }

  /** a <= b implies a * c <= b * c for naturals. */
  lemma MulLe(a: nat, b: nat, c: nat)
    requires a <= b
    ensures a * c <= b * c
  {
  }

  /** With fractions summing to at most one, 0 <= val_split <= test_split <= n,
      and the slices have the sizes val_split, test_split - val_split and
      n - test_split. */
  lemma SplitSizes(n: nat, perm: seq<nat>, validFraction: Fraction, testFraction: Fraction,
                   batchSize: int, numWorkers: int)
    requires validFraction.Valid() && testFraction.Valid()
    requires validFraction.num * testFraction.den + testFraction.num * validFraction.den
             <= validFraction.den * testFraction.den
    requires IsPermutation(perm, n)
    ensures var valSplit := FloorTimes(validFraction, n);
            var testSplit := valSplit + FloorTimes(testFraction, n);
            var r := PrepareData(n, perm, validFraction, testFraction, batchSize, numWorkers);
            && 0 <= valSplit <= testSplit <= n
            && |r.valid| == valSplit
            && |r.test| == testSplit - valSplit
            && |r.train| == n - testSplit
  {
    FloorSumBound(validFraction, testFraction, n);
    ParamsBranches(batchSize, numWorkers);
  }

  /** The default fractions 0.05 and 0.2 sum to at most one. */
  lemma DefaultsBounded(n: nat)
    ensures 0 <= FloorTimes(DefaultValid, n) <= FloorTimes(DefaultValid, n) + FloorTimes(DefaultTest, n) <= n
  {
    FloorSumBound(DefaultValid, DefaultTest, n);
  }

  /** The three slices share no index, and together they hold exactly the
      indices 0..n-1. */
  lemma DisjointCover(n: nat, perm: seq<nat>, validFraction: Fraction, testFraction: Fraction,
                      batchSize: int, numWorkers: int)
    requires validFraction.Valid() && testFraction.Valid()
    requires IsPermutation(perm, n)
    ensures var r := PrepareData(n, perm, validFraction, testFraction, batchSize, numWorkers);
            && (forall j, k | 0 <= j < |r.valid| && 0 <= k < |r.test| :: r.valid[j] != r.test[k])
            && (forall j, k | 0 <= j < |r.valid| && 0 <= k < |r.train| :: r.valid[j] != r.train[k])
            && (forall j, k | 0 <= j < |r.test| && 0 <= k < |r.train| :: r.test[j] != r.train[k])
            && (forall i: nat :: i in r.valid || i in r.test || i in r.train <==> i < n)
  {
    var r := PrepareData(n, perm, validFraction, testFraction, batchSize, numWorkers);
    var a := |r.valid|;
    var b := a + |r.test|;
    assert r.valid == perm[..a] && r.test == perm[a..b] && r.train == perm[b..];
    forall i: nat
      ensures i in r.valid || i in r.test || i in r.train <==> i < n
    {
      assert i in perm <==> i in r.valid || i in r.test || i in r.train;
    }
  }

  /** inference partitions exactly as prepare_data with the default
      fractions, for the same shuffle. */
  lemma InferenceIsPrepareData(n: nat, perm: seq<nat>, batchSize: int, numWorkers: int)
    requires IsPermutation(perm, n)
    ensures Inference(n, perm, batchSize, numWorkers)
            == PrepareData(n, perm, DefaultValid, DefaultTest, batchSize, numWorkers)
  {
  }
}
