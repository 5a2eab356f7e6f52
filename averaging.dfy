/**
 * Neighbourhood averaging: for one point of a cloud, the colours of all
 * points found inside the search sphere are summed channel by channel, the
 * sums are divided by the number of neighbours and then by 255, giving a
 * normalised colour.
 *
 * The spatial search itself is not modelled: the neighbours' colours are an
 * input sequence. The search sphere is centred on the point, so the point is
 * always its own neighbour and a neighbourhood is never empty.
 */
module Averaging {

  /** One colour channel as stored in the cloud: an 8-bit value. */
  newtype byte = x: int | 0 <= x < 256

  /** The colour of one point of the cloud. */
  datatype Color = Color(r: byte, g: byte, b: byte)

  datatype Channel = Red | Green | Blue

  /** A colour whose channels are reals (after averaging and normalising). */
  datatype Rgb = Rgb(r: real, g: real, b: real)

  function Component(c: Color, ch: Channel): int
  {
    match ch
    case Red => c.r as int
    case Green => c.g as int
    case Blue => c.b as int
  }

  /** Every channel lies in [0,1]. */
  predicate IsUnit(c: Rgb)
  {
    0.0 <= c.r <= 1.0 && 0.0 <= c.g <= 1.0 && 0.0 <= c.b <= 1.0
  }

  /** A stored colour scaled to [0,1], channel by channel. */
  function Normalised(c: Color): Rgb
  {
    Rgb(c.r as real / 255.0, c.g as real / 255.0, c.b as real / 255.0)
  }

  /** Sum of one channel over the neighbours, accumulated in neighbour order. */
  function ChannelSum(ns: seq<Color>, ch: Channel): (s: int)
    ensures 0 <= s <= 255 * |ns|
    decreases |ns|
  {
    if |ns| == 0 then 0
    else ChannelSum(ns[..|ns| - 1], ch) + Component(ns[|ns| - 1], ch)
  }

  /** Average of a non-empty sum of byte values, scaled to [0,1]. */
  function Scale(sum: int, n: nat): (x: real)
    requires 0 < n && 0 <= sum <= 255 * n
    ensures 0.0 <= x <= 1.0
  {
    assert sum as real <= 255.0 * n as real;
    assert sum as real / n as real <= 255.0 by {
      DivideBound(sum as real, n as real, 255.0);
    }
    sum as real / n as real / 255.0
  }

  lemma DivideBound(a: real, n: real, bound: real)
    requires 0.0 < n && a <= bound * n
    ensures a / n <= bound
  {
    assert a / n * n == a;
  }

  /** The normalised average colour of a neighbourhood. */
  function Mean(ns: seq<Color>): (avg: Rgb)
    requires |ns| > 0
    ensures IsUnit(avg)
  {
    Rgb(Scale(ChannelSum(ns, Red), |ns|),
        Scale(ChannelSum(ns, Green), |ns|),
        Scale(ChannelSum(ns, Blue), |ns|))
  }

  /**
   * The averaging loop of the per-point pass: three running sums in neighbour
   * order, then division by the count and by 255.
   */
  method AverageColor(ns: seq<Color>) returns (avg: Rgb)
    requires |ns| > 0
    ensures avg == Mean(ns)
    ensures IsUnit(avg)
  {
    var rSum, gSum, bSum := 0.0, 0.0, 0.0;
    var i := 0;
    while i < |ns|
      invariant 0 <= i <= |ns|
      invariant rSum == ChannelSum(ns[..i], Red) as real
      invariant gSum == ChannelSum(ns[..i], Green) as real
      invariant bSum == ChannelSum(ns[..i], Blue) as real
    {
      assert ns[..i + 1][..i] == ns[..i];
      rSum := rSum + ns[i].r as real;
      gSum := gSum + ns[i].g as real;
      bSum := bSum + ns[i].b as real;
      i := i + 1;
    }
    assert ns[..i] == ns;
    var n := |ns| as real;
    avg := Rgb(rSum / n / 255.0, gSum / n / 255.0, bSum / n / 255.0);
  }

  /** A channel summed over n copies of one colour is n times that channel. */
  lemma {:induction false} ChannelSumUniform(ns: seq<Color>, c: Color, ch: Channel)
    requires forall i | 0 <= i < |ns| :: ns[i] == c
    ensures ChannelSum(ns, ch) == |ns| * Component(c, ch)
  {
    if |ns| > 0 {
      ChannelSumUniform(ns[..|ns| - 1], c, ch);
    }
  }

  /**
   * A neighbourhood in which every point has the same colour averages to that
   * colour, normalised; in particular a point with no neighbour but itself
   * keeps its own colour.
   */
  lemma MeanOfUniform(ns: seq<Color>, c: Color)
    requires |ns| > 0
    requires forall i | 0 <= i < |ns| :: ns[i] == c
    ensures Mean(ns) == Normalised(c)
  {
    ChannelSumUniform(ns, c, Red);
    ChannelSumUniform(ns, c, Green);
    ChannelSumUniform(ns, c, Blue);
    CancelCount(|ns|, c.r as int);
    CancelCount(|ns|, c.g as int);
    CancelCount(|ns|, c.b as int);
  }

  lemma CancelCount(n: nat, a: int)
    requires n > 0
    ensures (n * a) as real / n as real == a as real
  {
    assert (n * a) as real == n as real * a as real;
  }

  lemma MeanOfSingle(c: Color)
    ensures Mean([c]) == Normalised(c)
  {
    MeanOfUniform([c], c);
  }
}
