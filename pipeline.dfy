/**
 * The per-cloud task: pass 1 averages every point's neighbourhood, converts
 * the average to HSV, buffers H, S and V in point order and tracks each
 * channel's range; pass 2 then quantises each buffer against its channel's
 * final range. The six buffers are what the task writes to the layers
 * HUE, SATURATION, VALUE, segmentation_H, segmentation_S and segmentation_V.
 *
 * A cloud is given by the neighbours' colours of each of its points, in the
 * cloud's point order; the spatial search that finds them is not modelled.
 */
module CloudPipeline {
  import opened Averaging
  import opened HsvConversion
  import opened RangeTracking
  import opened Quantisation

  /** The sphere around a point always contains the point itself. */
  predicate NoEmptyNeighbourhood(nbs: seq<seq<Color>>)
  {
    forall i | 0 <= i < |nbs| :: |nbs[i]| > 0
  }

  /** The HSV triple of one point, from its neighbourhood. */
  function PointHsv(ns: seq<Color>): (hsv: Hsv)
    requires |ns| > 0
    ensures IsValidHsv(hsv)
    ensures hsv.h == NaN <==> hsv.s == 0.0
  {
    ToHsv(Mean(ns))
  }

  /** The work of pass 1 on one point: average its neighbourhood, convert. */
  method ConvertPoint(ns: seq<Color>) returns (hsv: Hsv)
    requires |ns| > 0
    ensures hsv == PointHsv(ns)
    ensures IsValidHsv(hsv)
  {
    var avg := AverageColor(ns);
    hsv := ToHsv(avg);
  }

  /**
   * Pass 1: for each point in order, average its neighbourhood, convert to
   * HSV, append H, S and V to their buffers and update each channel's
   * running range. (The source also reports progress every 10000 points and
   * aborts the whole run if the host asks it to; that channel is not
   * modelled.)
   */
  method Pass1(nbs: seq<seq<Color>>)
    returns (hues: seq<Sample>, sats: seq<Sample>, vals: seq<Sample>, hRange: Range, sRange: Range, vRange: Range)
    requires NoEmptyNeighbourhood(nbs)
    ensures hues == HueBuffer(nbs) && sats == SaturationBuffer(nbs) && vals == ValueBuffer(nbs)
    ensures |hues| == |nbs| && |sats| == |nbs| && |vals| == |nbs|
    ensures forall i | 0 <= i < |nbs| ::
      && hues[i] == PointHsv(nbs[i]).h
      && sats[i] == Num(PointHsv(nbs[i]).s)
      && vals[i] == Num(PointHsv(nbs[i]).v)
    ensures hRange == RangeOf(hues) && sRange == RangeOf(sats) && vRange == RangeOf(vals)
    ensures HasNumber(hues) ==> IsRangeOf(hues, hRange)
    ensures !HasNumber(hues) <==> hRange == InitialRange
    ensures |nbs| > 0 ==> IsRangeOf(sats, sRange) && IsRangeOf(vals, vRange)
    ensures |nbs| > 0 ==> sRange != InitialRange && vRange != InitialRange
  {
    hues, sats, vals := [], [], [];
    hRange, sRange, vRange := InitialRange, InitialRange, InitialRange;
    for i := 0 to |nbs|
      invariant hues == HueBuffer(nbs[..i])
      invariant sats == SaturationBuffer(nbs[..i])
      invariant vals == ValueBuffer(nbs[..i])
      invariant hRange == RangeOf(hues) && sRange == RangeOf(sats) && vRange == RangeOf(vals)
    {
      var hsv := ConvertPoint(nbs[i]);
      // each channel's pair of comparisons against its running maximum and
      // minimum; a NaN hue compares false with both and changes neither
      hRange := Track(hRange, hsv.h);
      sRange := Track(sRange, Num(hsv.s));
      vRange := Track(vRange, Num(hsv.v));
      RangeOfAppend(hues, hsv.h);
      RangeOfAppend(sats, Num(hsv.s));
      RangeOfAppend(vals, Num(hsv.v));
      BuffersAppend(nbs, i);
      hues := hues + [hsv.h];
      sats := sats + [Num(hsv.s)];
      vals := vals + [Num(hsv.v)];
    }
    assert nbs[..|nbs|] == nbs;
    Pass1Ranges(nbs);
  }

  /** The range facts of pass 1, from the bounds every buffered value keeps. */
  lemma Pass1Ranges(nbs: seq<seq<Color>>)
    requires NoEmptyNeighbourhood(nbs)
    ensures
      var hues, sats, vals := HueBuffer(nbs), SaturationBuffer(nbs), ValueBuffer(nbs);
      && (HasNumber(hues) ==> IsRangeOf(hues, RangeOf(hues)))
      && (!HasNumber(hues) <==> RangeOf(hues) == InitialRange)
      && (|nbs| > 0 ==> IsRangeOf(sats, RangeOf(sats)) && IsRangeOf(vals, RangeOf(vals)))
      && (|nbs| > 0 ==> RangeOf(sats) != InitialRange && RangeOf(vals) != InitialRange)
  {
    var hues, sats, vals := HueBuffer(nbs), SaturationBuffer(nbs), ValueBuffer(nbs);
    assert WithinSentinels(hues) && WithinSentinels(sats) && WithinSentinels(vals);
    RangeOfAttained(hues);
    RangeOfAttained(sats);
    RangeOfAttained(vals);
    if |nbs| > 0 {
      assert sats[0].Num? && vals[0].Num?;
    }
  }

  /** The six buffers of one cloud, index-aligned with its points. */
  datatype Layers = Layers(
    hue: seq<Sample>,
    saturation: seq<Sample>,
    value: seq<Sample>,
    segmentationH: seq<Label>,
    segmentationS: seq<Label>,
    segmentationV: seq<Label>)

  /** The HUE buffer: one entry per point, NaN or an angle in [0,360). */
  function HueBuffer(nbs: seq<seq<Color>>): (b: seq<Sample>)
    requires NoEmptyNeighbourhood(nbs)
    ensures |b| == |nbs|
    ensures forall i | 0 <= i < |b| :: b[i] == NaN || 0.0 <= b[i].x < 360.0
  {
    seq(|nbs|, i requires 0 <= i < |nbs| => PointHsv(nbs[i]).h)
  }

  /** The SATURATION buffer: one number in [0,100] per point. */
  function SaturationBuffer(nbs: seq<seq<Color>>): (b: seq<Sample>)
    requires NoEmptyNeighbourhood(nbs)
    ensures |b| == |nbs|
    ensures forall i | 0 <= i < |b| :: b[i].Num? && 0.0 <= b[i].x <= 100.0
  {
    seq(|nbs|, i requires 0 <= i < |nbs| => Num(PointHsv(nbs[i]).s))
  }

  /** The VALUE buffer: one number in [0,100] per point. */
  function ValueBuffer(nbs: seq<seq<Color>>): (b: seq<Sample>)
    requires NoEmptyNeighbourhood(nbs)
    ensures |b| == |nbs|
    ensures forall i | 0 <= i < |b| :: b[i].Num? && 0.0 <= b[i].x <= 100.0
  {
    seq(|nbs|, i requires 0 <= i < |nbs| => Num(PointHsv(nbs[i]).v))
  }

  /**
   * What one cloud's task computes: the H, S and V buffers of pass 1 and the
   * labels of pass 2, each label taken against the final range of its whole
   * channel. All six have one entry per point.
   */
  function CloudLayers(nbs: seq<seq<Color>>, kH: int, kS: int, kV: int): (l: Layers)
    requires NoEmptyNeighbourhood(nbs)
    requires ValidClusters(kH) && ValidClusters(kS) && ValidClusters(kV)
    ensures |l.hue| == |nbs| && |l.saturation| == |nbs| && |l.value| == |nbs|
    ensures |l.segmentationH| == |nbs| && |l.segmentationS| == |nbs| && |l.segmentationV| == |nbs|
  {
    var hues, sats, vals := HueBuffer(nbs), SaturationBuffer(nbs), ValueBuffer(nbs);
    Layers(hues, sats, vals, Labels(hues, kH), Labels(sats, kS), Labels(vals, kV))
  }

  /**
   * The per-cloud task: pass 1 runs to completion over every point before
   * pass 2 quantises any buffer, since each label needs its channel's final
   * range.
   */
  method RunCloud(nbs: seq<seq<Color>>, kH: int, kS: int, kV: int) returns (layers: Layers)
    requires NoEmptyNeighbourhood(nbs)
    requires ValidClusters(kH) && ValidClusters(kS) && ValidClusters(kV)
    ensures layers == CloudLayers(nbs, kH, kS, kV)
  {
    var hues, sats, vals, hRange, sRange, vRange := Pass1(nbs);
    var segH := Quantise(hues, hRange, kH);
    var segS := Quantise(sats, sRange, kS);
    var segV := Quantise(vals, vRange, kV);
    assert segH == Labels(hues, kH) && segS == Labels(sats, kS) && segV == Labels(vals, kV);
    layers := Layers(hues, sats, vals, segH, segS, segV);
  }

  /** Converting one more point extends each buffer by that point's entry. */
  lemma BuffersAppend(nbs: seq<seq<Color>>, i: nat)
    requires NoEmptyNeighbourhood(nbs) && i < |nbs|
    ensures HueBuffer(nbs[..i + 1]) == HueBuffer(nbs[..i]) + [PointHsv(nbs[i]).h]
    ensures SaturationBuffer(nbs[..i + 1]) == SaturationBuffer(nbs[..i]) + [Num(PointHsv(nbs[i]).s)]
    ensures ValueBuffer(nbs[..i + 1]) == ValueBuffer(nbs[..i]) + [Num(PointHsv(nbs[i]).v)]
  {
  }

  /**
   * Three far-apart points coloured pure red, green and blue, each its own
   * only neighbour, with 4 clusters per channel: the hues are 0, 120 and 240
   * and label as 0, 2 and 4 (the maximum lands on k, not k-1); saturation
   * and value are 100 everywhere, so their ranges have width 0 and every
   * one of their labels is +infinity.
   */
  lemma ThreePrimaries()
    ensures
      var nbs := [[Color(255, 0, 0)], [Color(0, 255, 0)], [Color(0, 0, 255)]];
      CloudLayers(nbs, 4, 4, 4) == Layers(
        [Num(0.0), Num(120.0), Num(240.0)],
        [Num(100.0), Num(100.0), Num(100.0)],
        [Num(100.0), Num(100.0), Num(100.0)],
        [Cluster(0), Cluster(2), Cluster(4)],
        [PlusInf, PlusInf, PlusInf],
        [PlusInf, PlusInf, PlusInf])
  {
    var nbs := [[Color(255, 0, 0)], [Color(0, 255, 0)], [Color(0, 0, 255)]];
    var hues := [Num(0.0), Num(120.0), Num(240.0)];
    var full := [Num(100.0), Num(100.0), Num(100.0)];
    PrimaryBuffers(nbs);
    PrimaryHueLabels(hues);
    FullLabels(full);
  }

  lemma PrimaryBuffers(nbs: seq<seq<Color>>)
    requires nbs == [[Color(255, 0, 0)], [Color(0, 255, 0)], [Color(0, 0, 255)]]
    ensures NoEmptyNeighbourhood(nbs)
    ensures HueBuffer(nbs) == [Num(0.0), Num(120.0), Num(240.0)]
    ensures SaturationBuffer(nbs) == [Num(100.0), Num(100.0), Num(100.0)]
    ensures ValueBuffer(nbs) == [Num(100.0), Num(100.0), Num(100.0)]
  {
    PrimaryPoints();
    BuffersOfThree(nbs, Hsv(Num(0.0), 100.0, 100.0), Hsv(Num(120.0), 100.0, 100.0), Hsv(Num(240.0), 100.0, 100.0));
  }

  lemma BuffersOfThree(nbs: seq<seq<Color>>, a: Hsv, b: Hsv, c: Hsv)
    requires |nbs| == 3 && NoEmptyNeighbourhood(nbs)
    requires PointHsv(nbs[0]) == a && PointHsv(nbs[1]) == b && PointHsv(nbs[2]) == c
    ensures HueBuffer(nbs) == [a.h, b.h, c.h]
    ensures SaturationBuffer(nbs) == [Num(a.s), Num(b.s), Num(c.s)]
    ensures ValueBuffer(nbs) == [Num(a.v), Num(b.v), Num(c.v)]
  {
  }

  lemma PrimaryPoints()
    ensures PointHsv([Color(255, 0, 0)]) == Hsv(Num(0.0), 100.0, 100.0)
    ensures PointHsv([Color(0, 255, 0)]) == Hsv(Num(120.0), 100.0, 100.0)
    ensures PointHsv([Color(0, 0, 255)]) == Hsv(Num(240.0), 100.0, 100.0)
  {
    PrimaryColors();
    PrimaryPoint(Color(255, 0, 0), Rgb(1.0, 0.0, 0.0));
    PrimaryPoint(Color(0, 255, 0), Rgb(0.0, 1.0, 0.0));
    PrimaryPoint(Color(0, 0, 255), Rgb(0.0, 0.0, 1.0));
  }

  lemma PrimaryHueLabels(hues: seq<Sample>)
    requires hues == [Num(0.0), Num(120.0), Num(240.0)]
    ensures RangeOf(hues) == Range(0.0, 240.0)
    ensures Labels(hues, 4) == [Cluster(0), Cluster(2), Cluster(4)]
  {
    RangeOfAppend([], Num(0.0));
    RangeOfAppend([Num(0.0)], Num(120.0));
    RangeOfAppend([Num(0.0), Num(120.0)], Num(240.0));
    assert [Num(0.0), Num(120.0)] + [Num(240.0)] == hues;
    assert RangeOf(hues) == Range(0.0, 240.0);
    assert Bucket(hues[1], Range(0.0, 240.0), 4) == Cluster(2);
    assert Bucket(hues[2], Range(0.0, 240.0), 4) == Cluster(4);
  }

  lemma FullLabels(full: seq<Sample>)
    requires full == [Num(100.0), Num(100.0), Num(100.0)]
    ensures RangeOf(full) == Range(100.0, 100.0)
    ensures Labels(full, 4) == [PlusInf, PlusInf, PlusInf]
  {
    RangeOfAppend([], Num(100.0));
    RangeOfAppend([Num(100.0)], Num(100.0));
    RangeOfAppend([Num(100.0), Num(100.0)], Num(100.0));
    assert [Num(100.0), Num(100.0)] + [Num(100.0)] == full;
  }

  /** A point that is its own only neighbour converts from its own colour. */
  lemma PrimaryPoint(c: Color, unit: Rgb)
    requires Normalised(c) == unit
    ensures PointHsv([c]) == ToHsv(unit)
  {
    MeanOfSingle(c);
  }
}
