# RGB to HSV conversion of point clouds: a Dafny model of the per-cloud task

The `RGB_to_HSV_conversion` plugin method (`hsv.cpp`) runs one task per point
cloud. The task has two passes:

1. **Pass 1.** For every point it averages the colours of the points inside
   a sphere around it and normalises them to [0,1]. It converts that average
   to hue (degrees), saturation (percent) and value (percent), and appends
   the three values to three buffers. It also keeps a running minimum and
   maximum per channel, starting from the sentinels 500 and -1.
2. **Pass 2.** It maps every buffered value to a segmentation label
   `floor(v / (max - min) * k)`, with k the configured cluster count of that
   channel.

The six buffers go to the layers `HUE`, `SATURATION`, `VALUE`,
`segmentation_H`, `segmentation_S` and `segmentation_V`.

The model is split into five modules:

- `Averaging` (`averaging.dfy`): byte colours and the running channel sums.
  `Mean` is the specification. The method `AverageColor` runs the summing
  loop and is proved equal to `Mean`.
- `HsvConversion` (`hsv_conversion.dfy`): the conversion as pure functions
  over exact reals. The four hue `if`s are not chained with `else`;
  `WinningBranch` says which assignment runs last.
- `RangeTracking` (`range_tracking.dfy`): the running min/max as a fold
  (`RangeOf`) of the per-sample update `Track`.
- `Quantisation` (`quantisation.dfy`): `Bucket` is the label formula.
  `Quantise` is the loop of one channel.
- `CloudPipeline` (`pipeline.dfy`): `Pass1` is a loop over the points that
  builds the buffers and ranges. `RunCloud` runs pass 1 to completion and
  then quantises the three buffers. `CloudLayers` is the whole task as one
  function.

Sequences are values, so the passes return new buffers and cannot change
anything else.

The source computes in IEEE doubles and guards none of its divisions. The
model uses exact reals and writes out the non-finite results the code
produces:

- **Equal channels.** When all three averaged channels are equal (black,
  white or any grey), every hue formula computes 0/0. So the hue is NaN
  (`Sample.NaN`), not 0. The test `max == 0 && min == 0` that would set
  hue 0 for black is always overwritten by a later branch.
- **NaN and the range.** A NaN hue compares false with both running bounds,
  so it never moves them. If every hue of a cloud is NaN, the hue range stays
  at the sentinels (500, -1).
- **Zero-width range.** When a channel's range has width 0 (for example a
  one-point cloud, or equal saturation everywhere), the label is +infinity
  for a positive value and NaN for 0 (`Label.PlusInf`, `Label.NotANumber`).
  It is not bucket 0.
- **Labels are not confined to 0 .. k-1.** The label formula divides by the
  width of the range but does not subtract the minimum. In exact arithmetic
  the channel's maximum gets label k when the minimum is 0, and at least k
  otherwise.

These three points depart from the usual conventions: HSV conversions
usually give grey a hue of 0, and quantisers usually map a zero-width range
to bucket 0 and confine labels to 0 .. k-1. The model follows the code.

## Model

| member | source | states |
|---|---|---|
| `Averaging.ChannelSum` | hsv.cpp:93-101 | the running sum of one byte channel over n neighbours lies in [0, 255·n] |
| `Averaging.Scale` | hsv.cpp:103-105 | a channel sum of n bytes divided by n and by 255 lies in [0,1] |
| `Averaging.Mean` | hsv.cpp:103-105 | the averaged colour (sum / count / 255) has every channel in [0,1] |
| `Averaging.AverageColor` | hsv.cpp:93-105 | the summing loop followed by the two divisions yields exactly `Mean` of the neighbourhood, which lies in [0,1]³ |
| `Averaging.ChannelSumUniform` | hsv.cpp:96-101 | summing a channel over n copies of one colour gives n times that channel |
| `Averaging.MeanOfUniform` | hsv.cpp:93-105 | a neighbourhood of one repeated colour averages to that colour divided by 255 |
| `Averaging.MeanOfSingle` | hsv.cpp:93-105 | a point that is its own only neighbour keeps its own colour divided by 255 |
| `HsvConversion.MaxChannel` | hsv.cpp:108 | the result is one of the three channels and no channel exceeds it |
| `HsvConversion.MinChannel` | hsv.cpp:109 | the result is one of the three channels and no channel is below it |
| `HsvConversion.WinningBranch` | hsv.cpp:112-120 | some channel branch always assigns last, so neither the initial -1 nor the black 0 survives; blue wins whenever it is maximal, green when maximal and blue is not, red only when it alone is maximal |
| `HsvConversion.FirstMatchBranch` | hsv.cpp:115-120 | reference order red, green, blue: the first maximal channel is chosen |
| `HsvConversion.BranchHue` | hsv.cpp:116-120 | for max > min, each channel formula stays in its own sector before the wrap: red in [-60,60], green in [60,180], blue in [180,300] |
| `HsvConversion.Wrap` | hsv.cpp:121-122 | the wrap adds 360 or nothing, and moves every angle in [-360,360) into [0,360) |
| `HsvConversion.Hue` | hsv.cpp:108-122 | the hue is NaN exactly when max == min (all channels equal, black included); otherwise, after the +360 wrap, it lies in [0,360) |
| `HsvConversion.TieOrderIrrelevant` | hsv.cpp:115-122 | for max > min, `Hue` (the last matching branch of the source wins) equals the wrapped formula of the first matching branch in the order red, green, blue |
| `HsvConversion.Saturation` | hsv.cpp:127-132 | for a colour in [0,1]³: saturation lies in [0,100], is 0 exactly when max == min, and is 100 exactly when min == 0 < max |
| `HsvConversion.Value` | hsv.cpp:137-138 | value is 100 times the largest channel (one channel × 100, none above), so it lies in [0,100] for a colour in [0,1]³ |
| `HsvConversion.ToHsv` | hsv.cpp:107-138 | for a colour in [0,1]³, H is NaN or in [0,360), S and V lie in [0,100], and H is NaN exactly when S is 0 |
| `HsvConversion.PrimaryColors` | hsv.cpp:107-138 | pure red, green and blue give (0,100,100), (120,100,100) and (240,100,100) |
| `HsvConversion.GreyColors` | hsv.cpp:107-138 | black, white and every grey y give hue NaN, saturation 0 and value 100·y |
| `RangeTracking.Track` | hsv.cpp:123-142 | one update keeps the new sample inside the range, only widens it, moves each end only to the sample, and leaves the range unchanged for a NaN sample |
| `RangeTracking.RangeOf` | hsv.cpp:73-142 | the range tracked over a buffer from the sentinels is never narrower than the sentinel pair, and is still that pair while every sample is NaN |
| `RangeTracking.RangeOfAppend` | hsv.cpp:123-146 | appending a sample to a buffer tracks it into the buffer's range |
| `RangeTracking.RangeOfBounds` | hsv.cpp:123-142 | the tracked range bounds every number in the buffer |
| `RangeTracking.RangeOfAttained` | hsv.cpp:73-142 | with all numbers strictly between the sentinels -1 and 500: once the buffer holds a number, both ends of the range are numbers of the buffer; the range is still the pair of sentinels exactly when the buffer holds no number |
| `Quantisation.Bucket` | hsv.cpp:165 | the label is a whole number exactly when the value is a number and the range has non-zero width; it is +infinity exactly when a positive value meets a zero-width range |
| `Quantisation.BucketMonotone` | hsv.cpp:165 | on a range of positive width, a larger value never gets a smaller label |
| `Quantisation.BucketNonNegative` | hsv.cpp:165 | on a range of positive width, a non-negative value gets a non-negative label |
| `Quantisation.BucketAtMaximum` | hsv.cpp:165 | in exact arithmetic, on a non-negative range of positive width, the maximum gets label k or more (exactly k when the minimum is 0), so labels can reach k |
| `Quantisation.Labels` | hsv.cpp:162-167 | one label per buffered value; a label is a whole number exactly when its value is a number and the buffer's tracked range has non-zero width |
| `Quantisation.LabelsSpan` | hsv.cpp:162-167 | on a buffer with a range of positive width, every number's label lies between the labels of the minimum and the maximum, and both occur |
| `Quantisation.Quantise` | hsv.cpp:162-167 | one label per buffered value, in buffer order, each the `Bucket` of that value against the given range |
| `CloudPipeline.PointHsv` | hsv.cpp:89-138 | a point's HSV triple from its neighbourhood is within range, and its hue is NaN exactly when its saturation is 0 |
| `CloudPipeline.ConvertPoint` | hsv.cpp:89-138 | the work of pass 1 on one point (the summing loop, then the conversion) yields exactly `PointHsv` of its neighbourhood, a triple within range |
| `CloudPipeline.Pass1` | hsv.cpp:73-158 | exactly one H, S and V entry per point, in point order, each the conversion of that point's average. Each range is the tracked range of its buffer. For a non-empty cloud the S and V ranges are attained at both ends and neither is the sentinel pair. The H range is attained once some hue is a number, and it is the sentinel pair exactly when every hue is NaN |
| `CloudPipeline.Pass1Ranges` | hsv.cpp:73-146 | the ranges tracked over the three buffers are attained at both ends once a buffer holds a number; the S and V ranges of a non-empty cloud are never the sentinel pair, and the H range is that pair exactly when every hue is NaN |
| `CloudPipeline.HueBuffer` | hsv.cpp:144 | one hue per point, each NaN or in [0,360) |
| `CloudPipeline.SaturationBuffer` | hsv.cpp:145 | one saturation per point, each a number in [0,100] |
| `CloudPipeline.ValueBuffer` | hsv.cpp:146 | one value per point, each a number in [0,100] |
| `CloudPipeline.BuffersAppend` | hsv.cpp:144-146 | the buffers of the first i+1 points are those of the first i points with point i's H, S and V appended |
| `CloudPipeline.CloudLayers` | hsv.cpp:84-201 | all six buffers of a cloud have one entry per point |
| `CloudPipeline.RunCloud` | hsv.cpp:84-201 | pass 1 over every point followed by the three quantisation loops computes exactly `CloudLayers` |
| `CloudPipeline.ThreePrimaries` | hsv.cpp:84-201 | a red, a green and a blue point, each its own only neighbour, with 4 clusters: hues 0, 120, 240 with labels 0, 2, 4; saturation and value 100 everywhere with every label +infinity |

## Left out

- Plugin glue is not modelled: the method class, its parameter bank, `Init`, node lookup and `ReportError` (hsv.cpp:9-50). Only the cluster-count bounds 1..20 are kept, as `ValidClusters`.
- `ForEachCloud` and its thread count (hsv.cpp:56-59, 247) are not modelled. Clouds share no state, so the model covers one cloud.
- The spatial sphere search (`FindPoints` with `SphericalSearchKernel`, hsv.cpp:87-90) is a foreign library call. The model takes each point's neighbour colours as input, in point order. The sphere radius only affects that search, so it does not appear.
- The sphere is centred on the point, so the point is always its own neighbour. The model therefore requires every neighbourhood to be non-empty (`NoEmptyNeighbourhood`). An empty one would give 0/0 averages in the source.
- Finding or creating the six layers and writing them (hsv.cpp:168-177, 185-194, 202-244) is persistence. The model stops at the `Layers` value. Overwriting an existing layer and re-running on an unchanged cloud are not modelled; every function of the model is deterministic.
- Progress reporting every 10000 points and the abort when the host cancels (hsv.cpp:148-157) are I/O. They are not modelled.
- Floating point is replaced by exact reals. Rounding, the `float(...)` cast in the label formula and the narrowing to `StoredReal` (hsv.cpp:165-166, 182-183, 199-200) are not modelled. Only the non-finite outcomes (NaN, ±infinity) are written out.
- `Quantisation.BucketAtMaximum` holds in exact arithmetic only. The source narrows each buffered value to `StoredReal` when it is appended (hsv.cpp:144-146) and casts it with `float(...)` in the label formula (hsv.cpp:165), while the running maximum stays a double (hsv.cpp:123-124). If that narrowing rounds the maximum down, its label can be k-1 instead of k.
