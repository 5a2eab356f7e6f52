/**
 * The running minimum and maximum of one channel (H, S or V) over the first
 * pass of a cloud. The maximum starts at the sentinel -1 and the minimum at
 * the sentinel 500; each new sample raises the maximum if it is greater and
 * lowers the minimum if it is smaller. A NaN sample compares false both
 * ways, so it leaves the range as it was.
 */
module RangeTracking {
  import opened HsvConversion

  datatype Range = Range(lo: real, hi: real)

  /** min = 500, max = -1: below and above every value of a valid channel. */
  const InitialRange := Range(500.0, -1.0)

  /** One update of the running range by one sample. */
  function Track(r: Range, s: Sample): (r': Range)
    ensures s == NaN ==> r' == r
    ensures s.Num? ==> r'.lo <= s.x <= r'.hi
    ensures r'.lo <= r.lo && r'.hi >= r.hi
    ensures r'.lo == r.lo || Num(r'.lo) == s
    ensures r'.hi == r.hi || Num(r'.hi) == s
  {
    match s
    case NaN => r
    case Num(x) =>
      var hi := if x > r.hi then x else r.hi;
      var lo := if x < r.lo then x else r.lo;
      Range(lo, hi)
  }

  /**
   * The range after tracking every sample of a buffer, in order: never
   * narrower than the sentinel pair, and still that pair while every sample
   * is NaN.
   */
  function RangeOf(samples: seq<Sample>): (r: Range)
    ensures r.lo <= InitialRange.lo && r.hi >= InitialRange.hi
    ensures (forall i | 0 <= i < |samples| :: samples[i] == NaN) ==> r == InitialRange
    decreases |samples|
  {
    if |samples| == 0 then InitialRange
    else Track(RangeOf(samples[..|samples| - 1]), samples[|samples| - 1])
  }

  /** Appending a sample to the buffer tracks it into the range. */
  lemma RangeOfAppend(samples: seq<Sample>, s: Sample)
    ensures RangeOf(samples + [s]) == Track(RangeOf(samples), s)
  {
    assert (samples + [s])[..|samples|] == samples;
  }

  /** Every number in the buffer lies strictly between the two sentinels. */
  predicate WithinSentinels(samples: seq<Sample>)
  {
    forall i | 0 <= i < |samples| :: samples[i].Num? ==> -1.0 < samples[i].x < 500.0
  }

  predicate HasNumber(samples: seq<Sample>)
  {
    exists i | 0 <= i < |samples| :: samples[i].Num?
  }

  /**
   * r is the tightest range of the numbers in the buffer: it bounds every one
   * of them, and both of its ends are numbers of the buffer.
   */
  predicate IsRangeOf(samples: seq<Sample>, r: Range)
  {
    && (forall i | 0 <= i < |samples| :: samples[i].Num? ==> r.lo <= samples[i].x <= r.hi)
    && (exists i | 0 <= i < |samples| :: samples[i] == Num(r.lo))
    && (exists i | 0 <= i < |samples| :: samples[i] == Num(r.hi))
  }

  /** The tracked range bounds every number of the buffer. */
  lemma {:induction false} RangeOfBounds(samples: seq<Sample>)
    ensures forall i | 0 <= i < |samples| ::
      samples[i].Num? ==> RangeOf(samples).lo <= samples[i].x <= RangeOf(samples).hi
  {
    if |samples| > 0 {
      var init := samples[..|samples| - 1];
      RangeOfBounds(init);
      forall i | 0 <= i < |samples| - 1
        ensures samples[i] == init[i]
      {
      }
    }
  }

  /**
   * With every number strictly between the sentinels, the tracked range is
   * attained at both ends as soon as the buffer holds one number, and it is
   * still the pair of sentinels exactly when it holds none (all NaN).
   */
  lemma {:induction false} RangeOfAttained(samples: seq<Sample>)
    requires WithinSentinels(samples)
    ensures HasNumber(samples) ==> IsRangeOf(samples, RangeOf(samples))
    ensures !HasNumber(samples) <==> RangeOf(samples) == InitialRange
  {
    RangeOfBounds(samples);
    if |samples| > 0 {
      var n := |samples| - 1;
      var init := samples[..n];
      assert forall i | 0 <= i < n :: init[i] == samples[i];
      assert WithinSentinels(init);
      RangeOfAttained(init);
      var r0 := RangeOf(init);
      var r := RangeOf(samples);
      if samples[n].Num? {
        var x := samples[n].x;
        assert HasNumber(samples);
        if HasNumber(init) {
          if r.lo != x {
            assert r.lo == r0.lo;
            var i :| 0 <= i < n && init[i] == Num(r0.lo);
            assert samples[i] == Num(r.lo);
          } else {
            assert samples[n] == Num(r.lo);
          }
          if r.hi != x {
            assert r.hi == r0.hi;
            var i :| 0 <= i < n && init[i] == Num(r0.hi);
            assert samples[i] == Num(r.hi);
          } else {
            assert samples[n] == Num(r.hi);
          }
        } else {
          assert r0 == InitialRange;
          assert r == Range(x, x);
          assert samples[n] == Num(r.lo);
        }
        assert r.hi > -1.0;
      } else {
        assert r == r0;
        assert HasNumber(samples) <==> HasNumber(init) by {
          if HasNumber(samples) {
            var i :| 0 <= i < |samples| && samples[i].Num?;
            assert i < n && init[i].Num?;
          }
          if HasNumber(init) {
            var i :| 0 <= i < n && init[i].Num?;
            assert samples[i].Num?;
          }
        }
        if HasNumber(samples) {
          var i :| 0 <= i < n && init[i] == Num(r0.lo);
          assert samples[i] == Num(r.lo);
          var j :| 0 <= j < n && init[j] == Num(r0.hi);
          assert samples[j] == Num(r.hi);
        }
      }
    }
  }
}
