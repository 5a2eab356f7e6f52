/**
 * Conversion of a normalised average colour to hue, saturation and value.
 *
 * The source computes in IEEE doubles and does not guard its divisions. The
 * model computes in exact reals and makes the one non-finite outcome that
 * can arise explicit: when all three channels are equal (grey, white and
 * black alike) every hue formula divides 0 by 0, which is NaN, and NaN
 * survives the `* 60`, the `+ 2`/`+ 4` and the `< 0` test unchanged. So a
 * hue is a `Sample`: a real number or NaN.
 */
module HsvConversion {
  import opened Averaging

  /** A stored value of the H, S or V buffer: a finite real, or NaN. */
  datatype Sample = Num(x: real) | NaN

  datatype Hsv = Hsv(h: Sample, s: real, v: real)

  /** The ranges the three components keep for a colour in [0,1]^3. */
  predicate IsValidHsv(c: Hsv)
  {
    && (c.h.Num? ==> 0.0 <= c.h.x < 360.0)
    && 0.0 <= c.s <= 100.0
    && 0.0 <= c.v <= 100.0
  }

  /** The largest channel. */
  function MaxChannel(c: Rgb): (m: real)
    ensures m >= c.r && m >= c.g && m >= c.b
    ensures m == c.r || m == c.g || m == c.b
  {
    var rg := if c.r >= c.g then c.r else c.g;
    if rg >= c.b then rg else c.b
  }

  /** The smallest channel. */
  function MinChannel(c: Rgb): (m: real)
    ensures m <= c.r && m <= c.g && m <= c.b
    ensures m == c.r || m == c.g || m == c.b
  {
    var rg := if c.r <= c.g then c.r else c.g;
    if rg <= c.b then rg else c.b
  }

  /**
   * Which assignment to `hue` is the last to run. `Initial` is the starting
   * value -1 and `Black` the assignment of 0 for an all-zero colour; both are
   * overwritten, because at least one channel equals the maximum.
   */
  datatype HueBranch = Initial | Black | RedMax | GreenMax | BlueMax

  /**
   * The four hue `if`s are not chained with `else`, so every one whose
   * condition holds assigns, and the last such assignment is the one kept:
   * on a tie for the maximum, blue wins over green and green over red.
   */
  function WinningBranch(c: Rgb): (w: HueBranch)
    ensures w != Initial && w != Black
    ensures w == BlueMax <==> c.b == MaxChannel(c)
    ensures w == GreenMax <==> c.g == MaxChannel(c) && c.b != MaxChannel(c)
    ensures w == RedMax <==> c.r == MaxChannel(c) && c.g != MaxChannel(c) && c.b != MaxChannel(c)
  {
    var m := MaxChannel(c);
    var w0 := Initial;
    var w1 := if m == 0.0 && MinChannel(c) == 0.0 then Black else w0;
    var w2 := if m == c.r then RedMax else w1;
    var w3 := if m == c.g then GreenMax else w2;
    if m == c.b then BlueMax else w3
  }

  /**
   * The order in which the hue formulas are usually presented: the first
   * channel equal to the maximum, red before green before blue.
   */
  function FirstMatchBranch(c: Rgb): (w: HueBranch)
    ensures w == RedMax <==> c.r == MaxChannel(c)
    ensures w == GreenMax <==> c.g == MaxChannel(c) && c.r != MaxChannel(c)
    ensures w == BlueMax <==> c.b == MaxChannel(c) && c.r != MaxChannel(c) && c.g != MaxChannel(c)
  {
    var m := MaxChannel(c);
    if m == c.r then RedMax else if m == c.g then GreenMax else BlueMax
  }

  /**
   * The hue formula of one branch, before the negative wrap. Each channel
   * branch covers its own sector: red [-60,60], green [60,180] and blue
   * [180,300].
   */
  function BranchHue(c: Rgb, w: HueBranch): (h: real)
    requires MaxChannel(c) != MinChannel(c)
    ensures w == Initial ==> h == -1.0
    ensures w == Black ==> h == 0.0
    ensures w == RedMax ==> -60.0 <= h <= 60.0
    ensures w == GreenMax ==> 60.0 <= h <= 180.0
    ensures w == BlueMax ==> 180.0 <= h <= 300.0
  {
    var d := MaxChannel(c) - MinChannel(c);
    RatioBounds(c.g - c.b, d);
    RatioBounds(c.b - c.r, d);
    RatioBounds(c.r - c.g, d);
    match w
    case Initial => -1.0
    case Black => 0.0
    case RedMax => 60.0 * ((c.g - c.b) / d)
    case GreenMax => 60.0 * (((c.b - c.r) / d) + 2.0)
    case BlueMax => 60.0 * (((c.r - c.g) / d) + 4.0)
  }

  /** A negative hue is moved up by a full turn. */
  function Wrap(h: real): (a: real)
    ensures a == h || a == h + 360.0
    ensures -360.0 <= h < 360.0 ==> 0.0 <= a < 360.0
  {
    if h < 0.0 then h + 360.0 else h
  }

  /** a / d lies in [-1, 1] when |a| <= d. */
  lemma RatioBounds(a: real, d: real)
    requires d > 0.0 && -d <= a <= d
    ensures -1.0 <= a / d <= 1.0
  {
    assert a / d * d == a;
  }

  /** a / d is -1 when a == -d. */
  lemma RatioMinusOne(a: real, d: real)
    requires d != 0.0 && a == -d
    ensures a / d == -1.0
  {
    assert a / d * d == a;
  }

  /** a / d is 1 when a == d. */
  lemma RatioOne(a: real, d: real)
    requires d != 0.0 && a == d
    ensures a / d == 1.0
  {
    assert a / d * d == a;
  }

  /** Hue in degrees; NaN exactly when the three channels are equal. */
  function Hue(c: Rgb): (h: Sample)
    ensures h == NaN <==> MaxChannel(c) == MinChannel(c)
    ensures h.Num? ==> 0.0 <= h.x < 360.0
  {
    if MaxChannel(c) == MinChannel(c) then
      NaN
    else
      Num(Wrap(BranchHue(c, WinningBranch(c))))
  }

  /** Saturation in percent: zero for black, otherwise (max - min) / max. */
  function Saturation(c: Rgb): (s: real)
    ensures IsUnit(c) ==> 0.0 <= s <= 100.0
    ensures IsUnit(c) ==> (s == 0.0 <==> MaxChannel(c) == MinChannel(c))
    ensures IsUnit(c) ==> (s == 100.0 <==> MinChannel(c) == 0.0 && MaxChannel(c) > 0.0)
  {
    var m := MaxChannel(c);
    var d := m - MinChannel(c);
    if m == 0.0 then
      0.0
    else
      assert IsUnit(c) ==> 0.0 <= d / m <= 1.0 by {
        if IsUnit(c) { RatioBounds(d, m); }
      }
      assert d != 0.0 ==> d / m != 0.0 by {
        if d != 0.0 { assert d / m * m == d; }
      }
      assert d / m == 1.0 <==> d == m by {
        if d == m { RatioOne(d, m); }
        if d / m == 1.0 { assert d / m * m == d; }
      }
      (d / m) * 100.0
  }

  /** Value in percent: the largest channel. */
  function Value(c: Rgb): (v: real)
    ensures v >= 100.0 * c.r && v >= 100.0 * c.g && v >= 100.0 * c.b
    ensures v == 100.0 * c.r || v == 100.0 * c.g || v == 100.0 * c.b
    ensures IsUnit(c) ==> 0.0 <= v <= 100.0
  {
    MaxChannel(c) * 100.0
  }

  /**
   * The full conversion of one averaged colour. For a colour in [0,1]^3 every
   * component stays in its range, and the hue is NaN exactly when the
   * saturation is zero.
   */
  function ToHsv(c: Rgb): (hsv: Hsv)
    ensures IsUnit(c) ==> IsValidHsv(hsv)
    ensures IsUnit(c) ==> (hsv.h == NaN <==> hsv.s == 0.0)
  {
    Hsv(Hue(c), Saturation(c), Value(c))
  }

  /**
   * Which channel ties for the maximum does not change the hue: the
   * last-match order of the source gives the same angle as the first-match
   * order red, green, blue.
   */
  lemma TieOrderIrrelevant(c: Rgb)
    requires MaxChannel(c) != MinChannel(c)
    ensures Hue(c) == Num(Wrap(BranchHue(c, FirstMatchBranch(c))))
  {
    var m := MaxChannel(c);
    var d := m - MinChannel(c);
    if c.r == m && c.g == m {
      // blue is the minimum: red gives 60 * 1, green gives 60 * (-1 + 2)
      RatioOne(c.g - c.b, d);
      RatioMinusOne(c.b - c.r, d);
    } else if c.r == m && c.b == m {
      // green is the minimum: red gives 60 * (-1) + 360, blue 60 * (1 + 4)
      RatioMinusOne(c.g - c.b, d);
      RatioOne(c.r - c.g, d);
    } else if c.g == m && c.b == m {
      // red is the minimum: green gives 60 * (1 + 2), blue 60 * (-1 + 4)
      RatioOne(c.b - c.r, d);
      RatioMinusOne(c.r - c.g, d);
    }
  }

  /** The three primaries convert to hues 0, 120 and 240 at full S and V. */
  lemma PrimaryColors()
    ensures ToHsv(Rgb(1.0, 0.0, 0.0)) == Hsv(Num(0.0), 100.0, 100.0)
    ensures ToHsv(Rgb(0.0, 1.0, 0.0)) == Hsv(Num(120.0), 100.0, 100.0)
    ensures ToHsv(Rgb(0.0, 0.0, 1.0)) == Hsv(Num(240.0), 100.0, 100.0)
  {
    var red, green, blue := Rgb(1.0, 0.0, 0.0), Rgb(0.0, 1.0, 0.0), Rgb(0.0, 0.0, 1.0);
    assert WinningBranch(red) == RedMax && BranchHue(red, RedMax) == 0.0;
    assert WinningBranch(green) == GreenMax && BranchHue(green, GreenMax) == 120.0;
    assert WinningBranch(blue) == BlueMax && BranchHue(blue, BlueMax) == 240.0;
  }

  /**
   * Black, white and every grey in between have a NaN hue and zero
   * saturation; their value is the grey level in percent.
   */
  lemma GreyColors(y: real)
    requires 0.0 <= y <= 1.0
    ensures ToHsv(Rgb(y, y, y)) == Hsv(NaN, 0.0, 100.0 * y)
  {
    assert MaxChannel(Rgb(y, y, y)) == y == MinChannel(Rgb(y, y, y));
  }
}
