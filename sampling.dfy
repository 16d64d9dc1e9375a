/**
 * The sample of postal-code areas calculate_driving_times queries, and the
 * slices `[i, i + 25)` it cuts the sample into, one route-matrix request each.
 */
module Sampling {
  import opened Wrappers
  import opened Records

  /** At most this many areas are drawn when no sample is given. */
  const SampleCap: nat := 100

  /** Destinations per route-matrix request. */
  const BatchSize: nat := 25

  /** `min(100, len(zip_gdf))`: the size of the default sample. */
  function DefaultSampleSize(n: nat): (k: nat)
    ensures k <= SampleCap && k <= n
    ensures k == SampleCap || k == n
  {
    if n < SampleCap then n else SampleCap
  }

  /**
   * The random choice `zip_gdf.sample(k)` makes, given as data: the row positions
   * drawn, without repetition.
   */
  predicate IsDraw(draw: seq<nat>, n: nat)
  {
    && |draw| == DefaultSampleSize(n)
    && (forall k :: 0 <= k < |draw| ==> draw[k] < n)
    && (forall k, l :: 0 <= k < l < |draw| ==> draw[k] != draw[l])
  }

  /** The sample used: the one passed in, or else the drawn rows of the loaded data. */
  function ChooseSample(given: Option<seq<AreaRecord>>, zips: seq<AreaRecord>,
                        draw: seq<nat>): (sample: seq<AreaRecord>)
    requires given.None? ==> IsDraw(draw, |zips|)
    ensures given.Some? ==> sample == given.value
    ensures given.None? ==> |sample| == DefaultSampleSize(|zips|)
    ensures given.None? ==> forall x :: x in sample ==> x in zips
  {
    match given
    case Some(s) => s
    case None =>
      var s := seq(|draw|, k requires 0 <= k < |draw| => zips[draw[k]]);
      assert forall x :: x in s ==> exists k :: 0 <= k < |draw| && x == zips[draw[k]];
      s
  }

  /** The batches laid end to end. */
  function Flatten<T>(batches: seq<seq<T>>): seq<T>
  {
    if batches == [] then [] else batches[0] + Flatten(batches[1..])
  }

  lemma {:induction false} FlattenAppend<T>(batches: seq<seq<T>>, last: seq<T>)
    ensures Flatten(batches + [last]) == Flatten(batches) + last
  {
    if batches != [] {
      assert (batches + [last])[1..] == batches[1..] + [last];
      FlattenAppend(batches[1..], last);
    }
  }

  /** `len(range(0, n, 25))`: how many requests a sample of n areas takes. */
  function BatchCount(n: nat): (c: nat)
    ensures c * BatchSize >= n
    ensures c > 0 ==> (c - 1) * BatchSize < n
  {
    (n + BatchSize - 1) / BatchSize
  }

  /** The loop over `range(0, n, 25)` is at its k-th step exactly while 25 * k < n. */
  lemma StepInRange(n: nat, k: nat)
    requires k <= BatchCount(n)
    ensures k * BatchSize < n <==> k < BatchCount(n)
  {
  }

  /** `min(i + 25, n)`: where `iloc[i:i+25]` stops. */
  function BatchEnd(i: nat, n: nat): nat
  {
    if i + BatchSize < n then i + BatchSize else n
  }

  /**
   * The slices the loop over `range(0, n, 25)` takes: nonempty, at most 25 long,
   * all but the last exactly 25, and together exactly the sample.
   */
  function Batches<T>(sample: seq<T>): (batches: seq<seq<T>>)
    decreases |sample|
    ensures |batches| == BatchCount(|sample|)
    ensures forall k :: 0 <= k < |batches| ==> 0 < |batches[k]| <= BatchSize
    ensures forall k :: 0 <= k < |batches| - 1 ==> |batches[k]| == BatchSize
    ensures Flatten(batches) == sample
  {
    if sample == [] then []
    else if |sample| <= BatchSize then [sample]
    else
      var rest := Batches(sample[BatchSize..]);
      assert sample == sample[..BatchSize] + sample[BatchSize..];
      assert ([sample[..BatchSize]] + rest)[1..] == rest;
      [sample[..BatchSize]] + rest
  }

  /** Batch k is the slice that starts at `i = 25 * k`. */
  lemma {:induction false} BatchIsSlice<T>(sample: seq<T>, k: nat)
    requires k < BatchCount(|sample|)
    ensures k * BatchSize < |sample|
    ensures Batches(sample)[k] == sample[k * BatchSize .. BatchEnd(k * BatchSize, |sample|)]
    decreases k
  {
    if k > 0 {
      var n := |sample|;
      var rest := sample[BatchSize..];
      var lo, hi := (k - 1) * BatchSize, k * BatchSize;
      assert hi == lo + BatchSize;
      assert k - 1 < BatchCount(|rest|);
      BatchIsSlice(rest, k - 1);
      assert Batches(sample)[k] == Batches(rest)[k - 1];
      assert BatchEnd(hi, n) == BatchEnd(lo, |rest|) + BatchSize;
      assert rest[lo .. BatchEnd(lo, |rest|)] == sample[hi .. BatchEnd(hi, n)];
    }
  }

  /** Every position of the sample is queried once: position i of the sample is entry i % 25 of batch i / 25. */
  lemma EveryPositionInItsBatch<T>(sample: seq<T>, i: nat)
    requires i < |sample|
    ensures i / BatchSize < |Batches(sample)|
    ensures i % BatchSize < |Batches(sample)[i / BatchSize]|
    ensures Batches(sample)[i / BatchSize][i % BatchSize] == sample[i]
  {
    var k, j := i / BatchSize, i % BatchSize;
    assert i == k * BatchSize + j && j < BatchSize;
    assert k < BatchCount(|sample|);
    BatchIsSlice(sample, k);
    assert Batches(sample)[k][j] == sample[k * BatchSize + j];
  }

  /** Sixty areas go out as three requests of 25, 25 and 10 destinations. */
  lemma SixtyAreasThreeBatches<T>(sample: seq<T>)
    requires |sample| == 60
    ensures |Batches(sample)| == 3
    ensures |Batches(sample)[0]| == 25 && |Batches(sample)[1]| == 25 && |Batches(sample)[2]| == 10
  {
    BatchIsSlice(sample, 2);
  }
}
