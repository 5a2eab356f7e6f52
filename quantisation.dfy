/**
 * The second pass: every buffered H, S or V value is mapped to a cluster
 * label floor(v / (max - min) * k), where max and min are the channel's
 * final range from the first pass and k is the configured number of
 * clusters for that channel.
 *
 * The formula divides by the width of the range but does not subtract the
 * minimum, so labels are not confined to 0 .. k-1. It also does not guard
 * the division: when the range is a single value the width is 0, and the
 * label is +infinity for a positive value, -infinity for a negative one and
 * NaN for 0 (as is the label of a NaN hue).
 */
module Quantisation {
  import opened HsvConversion
  import opened RangeTracking

  /** A stored segmentation value: a whole number, an infinity, or NaN. */
  datatype Label = Cluster(n: int) | PlusInf | MinusInf | NotANumber

  /** The parameter bank allows 1 to 20 clusters per channel (default 4). */
  predicate ValidClusters(k: int)
  {
    1 <= k <= 20
  }

  /** The label of one buffered value, given its channel's final range. */
  function Bucket(s: Sample, r: Range, k: int): (l: Label)
    requires ValidClusters(k)
    ensures l.Cluster? <==> s.Num? && r.hi != r.lo
    ensures l == PlusInf <==> s.Num? && r.hi == r.lo && s.x > 0.0
  {
    match s
    case NaN => NotANumber
    case Num(x) =>
      var width := r.hi - r.lo;
      if width != 0.0 then Cluster((x / width * k as real).Floor)
      else if x > 0.0 then PlusInf
      else if x < 0.0 then MinusInf
      else NotANumber
  }

  /** Dividing by a positive width and scaling by k keeps the order. */
  lemma ScaleMonotone(x: real, y: real, width: real, k: real)
    requires x <= y && width > 0.0 && k > 0.0
    ensures x / width * k <= y / width * k
  {
    assert x / width <= y / width by {
      assert x / width * width == x;
      assert y / width * width == y;
    }
  }

  /**
   * On a range of positive width the labels are monotone: a larger value
   * never gets a smaller label.
   */
  lemma BucketMonotone(x: real, y: real, r: Range, k: int)
    requires ValidClusters(k) && r.hi > r.lo && x <= y
    ensures Bucket(Num(x), r, k).n <= Bucket(Num(y), r, k).n
  {
    ScaleMonotone(x, y, r.hi - r.lo, k as real);
  }

  /** A non-negative value gets a non-negative label. */
  lemma BucketNonNegative(x: real, r: Range, k: int)
    requires ValidClusters(k) && r.hi > r.lo && x >= 0.0
    ensures Bucket(Num(x), r, k).n >= 0
  {
    ScaleMonotone(0.0, x, r.hi - r.lo, k as real);
  }

  /**
   * Because the minimum is not subtracted, the maximum of a non-negative
   * range gets a label of at least k, and exactly k when the minimum is 0:
   * the labels of a channel are not confined to 0 .. k-1.
   */
  lemma BucketAtMaximum(r: Range, k: int)
    requires ValidClusters(k) && 0.0 <= r.lo < r.hi
    ensures Bucket(Num(r.hi), r, k).n >= k
    ensures r.lo == 0.0 ==> Bucket(Num(r.hi), r, k) == Cluster(k)
  {
    var width := r.hi - r.lo;
    var q := r.hi / width * k as real;
    assert width / width == 1.0;
    assert width / width * k as real == k as real;
    ScaleMonotone(width, r.hi, width, k as real);
    assert q >= k as real;
    assert Bucket(Num(r.hi), r, k) == Cluster(q.Floor);
    if r.lo == 0.0 {
      assert r.hi / width == 1.0;
    }
  }

  /** The labels of a whole buffer, each against the buffer's final range. */
  function Labels(samples: seq<Sample>, k: int): (labels: seq<Label>)
    requires ValidClusters(k)
    ensures |labels| == |samples|
    ensures forall i | 0 <= i < |samples| ::
      labels[i].Cluster? <==> samples[i].Num? && RangeOf(samples).hi != RangeOf(samples).lo
  {
    seq(|samples|, i requires 0 <= i < |samples| => Bucket(samples[i], RangeOf(samples), k))
  }

  /**
   * On a buffer whose tracked range has positive width, every number's label
   * lies between the labels of the channel's minimum and maximum, and both of
   * those labels occur in the buffer.
   */
  lemma LabelsSpan(samples: seq<Sample>, k: int)
    requires ValidClusters(k) && WithinSentinels(samples)
    requires RangeOf(samples).lo < RangeOf(samples).hi
    ensures
      var r := RangeOf(samples);
      var labels := Labels(samples, k);
      && (forall i | 0 <= i < |samples| && samples[i].Num? ::
            Bucket(Num(r.lo), r, k).n <= labels[i].n <= Bucket(Num(r.hi), r, k).n)
      && (exists i | 0 <= i < |samples| :: labels[i] == Bucket(Num(r.lo), r, k))
      && (exists i | 0 <= i < |samples| :: labels[i] == Bucket(Num(r.hi), r, k))
  {
    var r := RangeOf(samples);
    RangeOfAttained(samples);
    assert HasNumber(samples);
    forall i | 0 <= i < |samples| && samples[i].Num?
      ensures Bucket(Num(r.lo), r, k).n <= Labels(samples, k)[i].n <= Bucket(Num(r.hi), r, k).n
    {
      BucketMonotone(r.lo, samples[i].x, r, k);
      BucketMonotone(samples[i].x, r.hi, r, k);
    }
    var i :| 0 <= i < |samples| && samples[i] == Num(r.lo);
    assert Labels(samples, k)[i] == Bucket(Num(r.lo), r, k);
    var j :| 0 <= j < |samples| && samples[j] == Num(r.hi);
    assert Labels(samples, k)[j] == Bucket(Num(r.hi), r, k);
  }

  /**
   * The quantisation loop of one channel: one label per buffered value, in
   * buffer order.
   */
  method Quantise(samples: seq<Sample>, r: Range, k: int) returns (labels: seq<Label>)
    requires ValidClusters(k)
    ensures |labels| == |samples|
    ensures forall i | 0 <= i < |samples| :: labels[i] == Bucket(samples[i], r, k)
    ensures r == RangeOf(samples) ==> labels == Labels(samples, k)
  {
    labels := [];
    for i := 0 to |samples|
      invariant |labels| == i
      invariant forall j | 0 <= j < i :: labels[j] == Bucket(samples[j], r, k)
    {
      labels := labels + [Bucket(samples[i], r, k)];
    }
  }
}
