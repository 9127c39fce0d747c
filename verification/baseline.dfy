/**
 * Fitting the baseline PNG to the screen (`VQCT.prepareBasePNG`). The
 * program computes the percentages in single-precision floating point and
 * rounds with `roundToInt`; here the quotients are exact rationals and
 * rounding is to the nearest integer, halves upwards.
 */
module Baseline {
  import opened Outcomes
  import opened Text
  import opened Files
  import opened Naming
  import opened ImageUtils

  /** The current screen resolution. */
  datatype Screen = Screen(width: int, height: int)

  predicate ValidScreen(screen: Screen) {
    screen.width > 0 && screen.height > 0
  }

  /** The margin, in pixels, kept free on each axis when the baseline is shrunk. */
  const Margin: int := 100

  /** `roundToInt` of the exact quotient n / d: the nearest integer, halves rounded up. */
  function RoundDiv(n: int, d: int): (r: int)
    requires d > 0
    ensures d * (2 * r - 1) <= 2 * n < d * (2 * r + 1)
  {
    var q := (2 * n + d) / (2 * d);
    var m := (2 * n + d) % (2 * d);
    assert 2 * n + d == 2 * d * q + m && 0 <= m < 2 * d;
    assert d * (2 * q - 1) == 2 * d * q - d;
    assert d * (2 * q + 1) == 2 * d * q + d;
    q
  }

  lemma MulMonotone(d: int, a: int, b: int)
    ensures d >= 0 && a <= b ==> d * a <= d * b
  {
    if d >= 0 && a <= b {
      assert d * b - d * a == d * (b - a);
    }
  }

  lemma MulLessCancel(d: int, a: int, b: int)
    ensures d > 0 && d * a < d * b ==> a < b
  {
    MulMonotone(d, b, a);
  }

  /** The rounding bounds determine the rounded value: `RoundDiv` is the only integer within them. */
  lemma RoundDivUnique(n: int, d: int, r: int)
    requires d > 0
    requires d * (2 * r - 1) <= 2 * n < d * (2 * r + 1)
    ensures r == RoundDiv(n, d)
  {
    var q := RoundDiv(n, d);
    MulLessCancel(d, 2 * r - 1, 2 * q + 1);
    MulLessCancel(d, 2 * q - 1, 2 * r + 1);
  }

  /**
   * The percentage one axis of the baseline must be scaled by: 100 when the
   * image fits the screen on that axis, otherwise (screen - margin) as a
   * rounded percentage of the image's size.
   */
  function AxisPercentage(size: int, screenSize: int): (p: int)
    requires screenSize > 0
    ensures size <= screenSize ==> p == 100
    ensures size > screenSize ==>
      p <= 100 && size * (2 * p - 1) <= 200 * (screenSize - Margin) < size * (2 * p + 1)
  {
    if size > screenSize then
      var p := RoundDiv((screenSize - Margin) * 100, size);
      assert 200 * (screenSize - Margin) < size * 200;
      MulLessCancel(size, 2 * p - 1, 200);
      p
    else 100
  }

  /** On any screen up to 20000 pixels, an axis larger than the screen is shrunk. */
  lemma OversizeAxisShrinks(size: int, screenSize: int)
    requires 0 < screenSize <= 20000 && size > screenSize
    ensures AxisPercentage(size, screenSize) < 100
  {
    var p := AxisPercentage(size, screenSize);
    assert 200 * (screenSize - Margin) < size * 199;
    MulLessCancel(size, 2 * p - 1, 199);
  }

  /** On a screen wider than 20000 pixels, rounding can leave a slightly larger axis unscaled. */
  lemma OversizeAxisMayRoundTo100()
    ensures AxisPercentage(30001, 30000) == 100
  {
    RoundDivUnique(2990000, 30001, 100);
  }

  /**
   * The `when` that picks the percentage, as written: smaller, larger, equal,
   * then a fallback of 100.
   */
  function ChoosePercentage(widthPercentage: int, heightPercentage: int): (p: int)
    ensures p <= widthPercentage && p <= heightPercentage
    ensures p == widthPercentage || p == heightPercentage
  {
    if widthPercentage < heightPercentage then widthPercentage
    else if widthPercentage > heightPercentage then heightPercentage
    else if widthPercentage == heightPercentage then widthPercentage
    else 100
  }

  /** The baseline's scale: the stricter axis governs, and it never enlarges. */
  function ScalePercentage(width: int, height: int, screen: Screen): (p: int)
    requires ValidScreen(screen)
    ensures p <= 100
    ensures p == AxisPercentage(width, screen.width) || p == AxisPercentage(height, screen.height)
    ensures p <= AxisPercentage(width, screen.width) && p <= AxisPercentage(height, screen.height)
    ensures width <= screen.width && height <= screen.height ==> p == 100
  {
    ChoosePercentage(AxisPercentage(width, screen.width), AxisPercentage(height, screen.height))
  }

  /** A resize the run asks ImageMagick for. */
  datatype ResizeRequest = ResizeRequest(output: string, width: int, height: int)

  /** `roundToInt(size * percentage / 100)`. */
  function Scaled(size: int, percentage: int): int {
    RoundDiv(size * percentage, 100)
  }

  /** Scaling by a percentage between 0 and 100 never makes a dimension larger. */
  lemma ScaledNeverEnlarges(size: int, percentage: int)
    requires size >= 0 && 0 <= percentage <= 100
    ensures 0 <= Scaled(size, percentage) <= size
  {
    var r := Scaled(size, percentage);
    MulMonotone(size, percentage, 100);
    MulMonotone(size, 0, percentage);
    MulLessCancel(100, 2 * r - 1, 2 * size + 1);
    MulLessCancel(100, -1, 2 * r + 1);
  }

  /**
   * The working baseline: the file to compare against, the resize that was
   * asked for, if any, and whether it took effect.
   */
  datatype Prepared = Prepared(baseline: string, request: Option<ResizeRequest>, resized: bool)

  /**
   * `prepareBasePNG(basePNG)`: read the baseline's size; at 100% use it as it
   * is; otherwise ask for a resize into `<stem>-resize.png` in the output
   * directory, and fall back to the original baseline when the resize reports
   * failure.
   */
  function PrepareBasePng(basePng: string, outputDir: string, screen: Screen, env: Env,
                          props: map<string, string>, identify: ToolRun, resizeRan: bool): (r: Result<Prepared>)
    requires ValidScreen(screen)
    ensures r.Err? <==> GetImageInfo(basePng, env, props, identify).Err?
    ensures r.Err? ==> r.failure == GetImageInfo(basePng, env, props, identify).failure
    ensures r.Ok? && !r.value.resized ==> r.value.baseline == basePng
    ensures r.Ok? && r.value.resized ==>
      && r.value.request.Some?
      && r.value.baseline == r.value.request.value.output
      && r.value.baseline == OutputFile(basePng, outputDir, "-resize", "png", env.plat.sep)
    ensures r.Ok? && !resizeRan ==> !r.value.resized
  {
    match GetImageInfo(basePng, env, props, identify)
    case Err(f) => Err(f)
    case Ok(info) =>
      var p := ScalePercentage(info.width, info.height, screen);
      if p == 100 then Ok(Prepared(basePng, None, false))
      else
        var out := OutputFile(basePng, outputDir, "-resize", "png", env.plat.sep);
        var request := ResizeRequest(out, Scaled(info.width, p), Scaled(info.height, p));
        match ResizeImage(basePng, out, request.width, request.height, env, props, resizeRan)
        case Err(f) => Err(f)
        case Ok(true) => Ok(Prepared(out, Some(request), true))
        case Ok(false) => Ok(Prepared(basePng, Some(request), false))
  }

  /**
   * A resize is asked for exactly when the scale is not 100%, with both sides
   * scaled by it; a baseline that fits the screen is used unchanged.
   */
  lemma PrepareBasePngRequest(basePng: string, outputDir: string, screen: Screen, env: Env,
                              props: map<string, string>, identify: ToolRun, resizeRan: bool)
    requires ValidScreen(screen)
    requires GetImageInfo(basePng, env, props, identify).Ok?
    ensures
      var info := GetImageInfo(basePng, env, props, identify).value;
      var p := ScalePercentage(info.width, info.height, screen);
      var r := PrepareBasePng(basePng, outputDir, screen, env, props, identify, resizeRan);
      && r.Ok?
      && (r.value.request.None? <==> p == 100)
      && (r.value.request.Some? ==>
            r.value.request.value.width == Scaled(info.width, p)
            && r.value.request.value.height == Scaled(info.height, p))
      && (r.value.resized <==> p != 100 && ImageCommand(props, env).Ok? && resizeRan)
      && (info.width <= screen.width && info.height <= screen.height ==> r.value == Prepared(basePng, None, false))
  {
  }

  /**
   * A 2000x1000 baseline on a 1920x1080 screen: the width needs 91%, the height
   * fits, so the scale is 91% and the resize asked for is 1820x910.
   */
  lemma WideBaselineExample()
    ensures AxisPercentage(2000, 1920) == 91
    ensures AxisPercentage(1000, 1080) == 100
    ensures ScalePercentage(2000, 1000, Screen(1920, 1080)) == 91
    ensures Scaled(2000, 91) == 1820 && Scaled(1000, 91) == 910
  {
    RoundDivUnique(182000, 2000, 91);
    RoundDivUnique(182000, 100, 1820);
    RoundDivUnique(91000, 100, 910);
  }
}
