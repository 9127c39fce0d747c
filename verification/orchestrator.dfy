/**
 * One run of the comparison (`class VQCT`): the input checks of its
 * initialiser, `comparing`, and the per-browser loop of `launch`. Rendering
 * in a browser is not modelled; each browser's render either yields a
 * screenshot or fails with an exception, as the `World` says.
 */
module Orchestrator {
  import opened Outcomes
  import opened Text
  import opened Files
  import opened Browsers
  import opened Naming
  import opened Settings
  import opened ImageUtils
  import opened Baseline
  import opened Arguments

  /**
   * What a run observes of the outside world: the file system and platform,
   * the loaded settings, the screen, what identify prints for each file,
   * whether the resize command runs, how each browser's render ends (`None`
   * for a screenshot) and what compare prints for each browser's screenshot.
   */
  datatype World = World(
    env: Env,
    props: map<string, string>,
    screen: Screen,
    identify: string -> ToolRun,
    resizeRan: bool,
    render: Browser -> Option<Failure>,
    compare: Browser -> ToolRun)

  /** Whether `launch` stops at once: `--setup` without both files. */
  predicate SetupWithoutFiles(d: ArgumentsData) {
    (d.svgFile.None? || d.basePngFile.None?) && d.isSetup
  }

  /** What the `!!` dereferences of `VQCT` need: both files, the directory and the list, unless it stops at once. */
  predicate LaunchReady(d: ArgumentsData) {
    SetupWithoutFiles(d)
    || (d.svgFile.Some? && d.basePngFile.Some? && d.outputDirectory.Some? && d.browsers.Some?)
  }

  /** Every result of `parseArguments` is ready for `VQCT`. */
  lemma ParsedIsLaunchReady(args: seq<string>, env: Env)
    ensures ParseArguments(args, env).Ok? ==> LaunchReady(ParseArguments(args, env).value)
  {
  }

  function NotReadableMessage(plat: Platform, path: string, kind: string): string {
    "Can not get info from " + AbsolutePath(plat, path) + ". May be file is not " + kind + " format or file is corrupted!"
  }

  /** The file identify reports, as `File.extension.toLowerCase()`. */
  function ReportedExtension(info: ImageInfo, sep: char): string {
    Lower(Extension(info.file, sep))
  }

  /**
   * The initialiser of `VQCT`: unless it will stop at once, identify must
   * read the svg and then the png, and report files with extensions "svg"
   * and "png" in any letter case.
   */
  function CheckInputs(d: ArgumentsData, w: World): (r: Result<bool>)
    requires LaunchReady(d)
    ensures SetupWithoutFiles(d) ==> r == Ok(true)
    ensures !SetupWithoutFiles(d) ==>
      var svgInfo := GetImageInfo(d.svgFile.value, w.env, w.props, w.identify(d.svgFile.value));
      var pngInfo := GetImageInfo(d.basePngFile.value, w.env, w.props, w.identify(d.basePngFile.value));
      r.Ok? <==> (&& svgInfo.Ok? && ReportedExtension(svgInfo.value, w.env.plat.sep) == "svg"
                  && pngInfo.Ok? && ReportedExtension(pngInfo.value, w.env.plat.sep) == "png")
    ensures !SetupWithoutFiles(d) && !w.env.fileExists(d.svgFile.value) ==> r.Err? && r.failure.FileNotFound?
    ensures r.Err? ==> r.failure.IllegalState? || r.failure.FileNotFound?
    ensures r.Ok? ==> r.value
  {
    if SetupWithoutFiles(d) then Ok(true)
    else
      var svg := d.svgFile.value;
      var png := d.basePngFile.value;
      match GetImageInfo(svg, w.env, w.props, w.identify(svg))
      case Err(f) => Err(f)
      case Ok(svgInfo) =>
        if ReportedExtension(svgInfo, w.env.plat.sep) != "svg" then Err(IllegalState(NotReadableMessage(w.env.plat, svg, "svg")))
        else match GetImageInfo(png, w.env, w.props, w.identify(png))
          case Err(f) => Err(f)
          case Ok(pngInfo) =>
            if ReportedExtension(pngInfo, w.env.plat.sep) != "png" then Err(IllegalState(NotReadableMessage(w.env.plat, png, "png")))
            else Ok(true)
  }

  /**
   * `comparing(basePNG, screenshot)`: compare into
   * `<screenshot stem>-compare-result.png` in the output directory, then read
   * the threshold; the pair is equal when the count lies in 0..threshold.
   */
  function Comparing(baseline: string, screenshot: string, outputDir: string, env: Env,
                     props: map<string, string>, run: ToolRun): (r: Result<bool>)
    ensures r.Ok? <==>
      && env.fileExists(baseline) && env.fileExists(screenshot)
      && ImageCommand(props, env).Ok? && GetImFuzz(props).Ok? && GetImErrPixelCountThreshold(props).Ok?
    ensures r.Err? ==> r.failure.FileNotFound? || r.failure.IllegalState?
  {
    match CompareImage(baseline, screenshot, ArtifactFile(screenshot, outputDir, env.plat.sep), env, props, run)
    case Err(f) => Err(f)
    case Ok(count) =>
      match GetImErrPixelCountThreshold(props)
      case Err(f) => Err(f)
      case Ok(threshold) => Ok(0 <= count <= threshold)
  }

  /**
   * The inclusive threshold: a reported count passes exactly when it lies in
   * 0..threshold, so the threshold itself passes and one more fails; an
   * unreadable count never passes; a clean compare passes for any threshold
   * of at least 0.
   */
  lemma ComparingThreshold(baseline: string, screenshot: string, outputDir: string, env: Env,
                           props: map<string, string>, run: ToolRun)
    requires Comparing(baseline, screenshot, outputDir, env, props, run).Ok?
    ensures var t := GetImErrPixelCountThreshold(props).value;
      var passed := Comparing(baseline, screenshot, outputDir, env, props, run).value;
      && (run.succeeded ==> (passed <==> t >= 0))
      && (!run.succeeded && |run.stderr| > 0 && ParseInt(run.stderr[0]).Some? ==>
            (passed <==> 0 <= ParseInt(run.stderr[0]).value <= t))
      && (!run.succeeded && (|run.stderr| == 0 || ParseInt(run.stderr[0]).None?) ==> !passed)
  {
  }

  /** Counts printed as text: exactly the threshold passes and one pixel more fails. */
  lemma ThresholdIsInclusive(baseline: string, screenshot: string, outputDir: string, env: Env,
                             props: map<string, string>, run: ToolRun, t: int)
    requires Comparing(baseline, screenshot, outputDir, env, props, run).Ok?
    requires GetImErrPixelCountThreshold(props) == Ok(t) && 0 <= t && InIntRange(t + 1)
    ensures var atT := run.(succeeded := false, stderr := [IntToString(t)]);
      Comparing(baseline, screenshot, outputDir, env, props, atT) == Ok(true)
    ensures var above := run.(succeeded := false, stderr := [IntToString(t + 1)]);
      Comparing(baseline, screenshot, outputDir, env, props, above) == Ok(false)
  {
    var atT := run.(succeeded := false, stderr := [IntToString(t)]);
    var above := run.(succeeded := false, stderr := [IntToString(t + 1)]);
    ReportedCountRoundTrip(atT, t);
    ReportedCountRoundTrip(above, t + 1);
  }

  /** The start of every result line of `launch`. */
  function ResultPrefix(pngName: string, browserName: string): string {
    "Result of the comparing base file " + pngName + " with screenshot getting from " + browserName + ": "
  }

  const ErrorSuffix: string := "ERROR! For more information see logger.log file."

  /** The line for a browser whose comparison finished. */
  function ResultLine(pngName: string, b: Browser, equal: bool): string {
    ResultPrefix(pngName, Name(b)) + (if equal then "is equals" else "is not equals")
  }

  /** The line for a browser whose render or comparison failed, naming that browser. */
  function ErrorLine(pngName: string, b: Browser): string {
    ResultPrefix(pngName, Name(b)) + ErrorSuffix
  }

  /** The failure line as the program writes it: every browser but IE is labelled "OPERA". */
  function ErrorLineAsWritten(pngName: string, b: Browser): string {
    ResultPrefix(pngName, if b == IE then "IE" else "OPERA") + ErrorSuffix
  }

  /** As written, a CHROME or FIREFOX failure cannot be told apart from an OPERA failure. */
  lemma ErrorLineAsWrittenMislabels(pngName: string)
    ensures ErrorLineAsWritten(pngName, CHROME) == ErrorLineAsWritten(pngName, OPERA)
    ensures ErrorLineAsWritten(pngName, FIREFOX) == ErrorLineAsWritten(pngName, OPERA)
    ensures ErrorLineAsWritten(pngName, CHROME) != ErrorLine(pngName, CHROME)
  {
    var p := ResultPrefix(pngName, "");
    assert |ErrorLineAsWritten(pngName, CHROME)| == |p| + 5 + |ErrorSuffix|;
    assert |ErrorLine(pngName, CHROME)| == |p| + 6 + |ErrorSuffix|;
  }

  /**
   * With the browser's own name, failure lines of different browsers differ,
   * and no failure line reads like a result line.
   */
  lemma ErrorLinesIdentifyBrowser(pngName: string, b1: Browser, b2: Browser, equal: bool)
    ensures b1 != b2 ==> ErrorLine(pngName, b1) != ErrorLine(pngName, b2)
    ensures ErrorLine(pngName, b1) != ResultLine(pngName, b2, equal)
  {
    var p := ResultPrefix(pngName, "");
    assert |ErrorSuffix| == 48;
    assert |ErrorLine(pngName, b1)| == |p| + |Name(b1)| + 48;
    assert |ErrorLine(pngName, b2)| == |p| + |Name(b2)| + 48;
    assert |ResultLine(pngName, b2, equal)| <= |p| + |Name(b2)| + 13;
    assert |Name(b1)| >= 2 && |Name(b2)| <= 7;
  }

  /**
   * One browser's try block: identify the working baseline for its size,
   * render, store the screenshot as `<svg stem>-screen-by-<browser>.png` in
   * the output directory, and compare.
   */
  function BrowserOutcome(svg: string, outputDir: string, baseline: string, b: Browser, w: World): (r: Result<bool>)
    ensures r.Ok? ==> GetImageInfo(baseline, w.env, w.props, w.identify(baseline)).Ok? && w.render(b).None?
    ensures w.render(b).Some? ==> r.Err?
    ensures GetImageInfo(baseline, w.env, w.props, w.identify(baseline)).Ok? && w.render(b).None? ==>
      var shot := ScreenshotFile(svg, outputDir, b, w.env.plat.sep);
      r == Comparing(baseline, shot, outputDir, w.env.WithFile(shot), w.props, w.compare(b))
    ensures r.Ok? ==> (r.value <==> 0 <= DifferingPixels(w.compare(b)) <= GetImErrPixelCountThreshold(w.props).value)
  {
    var shot := ScreenshotFile(svg, outputDir, b, w.env.plat.sep);
    match GetImageInfo(baseline, w.env, w.props, w.identify(baseline))
    case Err(f) => Err(f)
    case Ok(_) =>
      match w.render(b)
      case Some(f) => Err(f)
      case None => Comparing(baseline, shot, outputDir, w.env.WithFile(shot), w.props, w.compare(b))
  }

  /** The line a browser adds: its result, or the failure line when anything in its try block throws. */
  function BrowserLine(pngName: string, outcome: Result<bool>, b: Browser): string {
    match outcome
    case Ok(equal) => ResultLine(pngName, b, equal)
    case Err(_) => ErrorLine(pngName, b)
  }

  /** What the `when` over `it.toUpperCase()` does with one requested name. */
  datatype Step = Skip | Visit(browser: Browser) | Abort(failure: Failure)

  /**
   * Names that are not constants are skipped; IE is visited only on
   * Windows, skipped on Linux, and on any other system `getOSName` throws.
   */
  function StepFor(name: string, os: Os): (s: Step)
    ensures s.Visit? ==> Name(s.browser) == Upper(name) && (s.browser == IE ==> os == Windows)
    ensures s.Abort? <==> Upper(name) == "IE" && os == Unsupported
    ensures s.Skip? <==> ValueOf(Upper(name)).None? || (Upper(name) == "IE" && os == Linux)
  {
    ValueOfName(IE);
    match ValueOf(Upper(name))
    case None => Skip
    case Some(b) =>
      if b != IE then Visit(b)
      else if os == Windows then Visit(IE)
      else if os == Linux then Skip
      else
        assert Upper(name) == "IE";
        assert os == Unsupported;
        Abort(IllegalState("Unsupported OS"))
  }

  /** The browsers `launch` visits, in request order: a filter over the requested names. */
  function Visited(names: seq<string>, os: Os): (bs: seq<Browser>)
    ensures |bs| <= |names|
  {
    if |names| == 0 then []
    else
      var rest := Visited(names[1..], os);
      match StepFor(names[0], os)
      case Visit(b) => [b] + rest
      case _ => rest
  }

  /** Whether some requested name makes `launch` throw. */
  predicate Aborts(names: seq<string>, os: Os) {
    exists i :: 0 <= i < |names| && StepFor(names[i], os).Abort?
  }

  /** The loop of `launch` over the requested names, one step at a time. */
  function RunBrowsers(names: seq<string>, svg: string, pngName: string, outputDir: string,
                       baseline: string, w: World): (r: Result<seq<string>>)
    ensures r.Err? ==> r.failure == IllegalState("Unsupported OS")
    decreases |names|
  {
    if |names| == 0 then Ok([])
    else match StepFor(names[0], w.env.plat.os)
      case Abort(f) => Err(f)
      case Skip => RunBrowsers(names[1..], svg, pngName, outputDir, baseline, w)
      case Visit(b) =>
        match RunBrowsers(names[1..], svg, pngName, outputDir, baseline, w)
        case Err(f) => Err(f)
        case Ok(rest) => Ok([BrowserLine(pngName, BrowserOutcome(svg, outputDir, baseline, b, w), b)] + rest)
  }

  /**
   * The loop yields exactly one line per visited browser, in request order,
   * each computed from that browser's own outcome alone, so a failure in one
   * browser changes no other browser's line; a name that makes `launch` throw
   * anywhere in the list discards them all.
   */
  lemma {:induction false} RunBrowsersLines(names: seq<string>, svg: string, pngName: string, outputDir: string,
                                            baseline: string, w: World)
    ensures var r := RunBrowsers(names, svg, pngName, outputDir, baseline, w);
      var visited := Visited(names, w.env.plat.os);
      && (r.Err? <==> Aborts(names, w.env.plat.os))
      && (r.Ok? ==> |r.value| == |visited|)
      && (r.Ok? ==> forall i :: 0 <= i < |visited| ==>
            r.value[i] == BrowserLine(pngName, BrowserOutcome(svg, outputDir, baseline, visited[i], w), visited[i]))
    decreases |names|
  {
    var os := w.env.plat.os;
    if |names| > 0 {
      var rest := names[1..];
      RunBrowsersLines(rest, svg, pngName, outputDir, baseline, w);
      AbortsUnfold(names, os);
      var r := RunBrowsers(names, svg, pngName, outputDir, baseline, w);
      var restRun := RunBrowsers(rest, svg, pngName, outputDir, baseline, w);
      var visited := Visited(names, os);
      var restVisited := Visited(rest, os);
      match StepFor(names[0], os)
      case Abort(f) =>
        assert r == Err(f);
      case Skip =>
        assert r == restRun && visited == restVisited;
      case Visit(b) =>
        assert visited == [b] + restVisited;
        if restRun.Ok? {
          var line := BrowserLine(pngName, BrowserOutcome(svg, outputDir, baseline, b, w), b);
          assert r.value == [line] + restRun.value;
          forall i | 0 <= i < |visited|
            ensures r.value[i] == BrowserLine(pngName, BrowserOutcome(svg, outputDir, baseline, visited[i], w), visited[i])
          {
            if i > 0 {
              assert visited[i] == restVisited[i - 1] && r.value[i] == restRun.value[i - 1];
            }
          }
        }
    }
  }

  /** A list aborts when its head does or its tail does. */
  lemma AbortsUnfold(names: seq<string>, os: Os)
    requires |names| > 0
    ensures Aborts(names, os) <==> StepFor(names[0], os).Abort? || Aborts(names[1..], os)
  {
    if Aborts(names[1..], os) {
      var k :| 0 <= k < |names[1..]| && StepFor(names[1..][k], os).Abort?;
      assert names[k + 1] == names[1..][k];
    }
    if Aborts(names, os) && !StepFor(names[0], os).Abort? {
      var k :| 0 <= k < |names| && StepFor(names[k], os).Abort?;
      assert k > 0;
      assert names[1..][k - 1] == names[k];
    }
  }

  /** With the default list, every browser is visited on Windows and all but IE on Linux. */
  lemma DefaultListVisits()
    ensures Visited(DefaultNames(), Windows) == [CHROME, FIREFOX, OPERA, IE]
    ensures Visited(DefaultNames(), Linux) == [CHROME, FIREFOX, OPERA]
    ensures !Aborts(DefaultNames(), Windows) && !Aborts(DefaultNames(), Linux)
    ensures Aborts(DefaultNames(), Unsupported)
  {
    DefaultNamesAreValid();
    var names := DefaultNames();
    assert Upper("CHROME") == "CHROME" && Upper("FIREFOX") == "FIREFOX";
    assert Upper("OPERA") == "OPERA" && Upper("IE") == "IE";
    assert names[1..] == ["FIREFOX", "OPERA", "IE"];
    assert names[1..][1..] == ["OPERA", "IE"];
    assert names[1..][1..][1..] == ["IE"];
    assert names[1..][1..][1..][1..] == [];
    assert StepFor(names[3], Unsupported).Abort?;
  }

  /** Requested names are matched ignoring case and unknown names are skipped without a line. */
  lemma LowerCaseNamesVisit()
    ensures Visited(["opera", "Chrome", "safari"], Linux) == [OPERA, CHROME]
  {
    var names := ["opera", "Chrome", "safari"];
    assert Upper("opera") == "OPERA" && Upper("Chrome") == "CHROME";
    assert Upper("safari") == "SAFARI";
    assert names[1..] == ["Chrome", "safari"];
    assert names[1..][1..] == ["safari"];
    assert names[1..][1..][1..] == [];
  }

  /** What the browser loop sees after `prepareBasePNG`: a resized baseline now exists. */
  function AfterPreparing(prepared: Prepared, w: World): World {
    if prepared.resized then w.(env := w.env.WithFile(prepared.baseline)) else w
  }

  const OutputDirectoryPrefix: string := "Output directory: "

  /**
   * `launch()`: stop at once for `--setup` without both files; otherwise
   * prepare the baseline, run the loop over the requested browsers against
   * it, and end with the output directory.
   */
  function Launch(d: ArgumentsData, w: World): (r: Result<seq<string>>)
    requires LaunchReady(d) && ValidScreen(w.screen)
    ensures SetupWithoutFiles(d) ==> r == Ok([])
    ensures !SetupWithoutFiles(d) && r.Ok? ==>
      && |r.value| >= 1
      && r.value[|r.value| - 1] == OutputDirectoryPrefix + AbsolutePath(w.env.plat, d.outputDirectory.value)
    ensures !SetupWithoutFiles(d) && r.Ok? ==>
      |r.value| == |Visited(d.browsers.value, w.env.plat.os)| + 1
    ensures !SetupWithoutFiles(d) ==>
      (r.Err? <==> (|| GetImageInfo(d.basePngFile.value, w.env, w.props, w.identify(d.basePngFile.value)).Err?
                    || Aborts(d.browsers.value, w.env.plat.os)))
    ensures r.Err? ==> r.failure.IllegalState? || r.failure.FileNotFound?
    ensures !SetupWithoutFiles(d) && r.Ok? ==>
      var png := d.basePngFile.value;
      var outputDir := AbsolutePath(w.env.plat, d.outputDirectory.value);
      var prepare := PrepareBasePng(png, outputDir, w.screen, w.env, w.props, w.identify(png), w.resizeRan);
      var visited := Visited(d.browsers.value, w.env.plat.os);
      && prepare.Ok?
      && |r.value| == |visited| + 1
      && forall i :: 0 <= i < |visited| ==>
           r.value[i] == BrowserLine(FileName(png, w.env.plat.sep),
                                     BrowserOutcome(d.svgFile.value, outputDir, prepare.value.baseline, visited[i],
                                                    AfterPreparing(prepare.value, w)),
                                     visited[i])
  {
    if SetupWithoutFiles(d) then Ok([])
    else
      var png := d.basePngFile.value;
      var outputDir := AbsolutePath(w.env.plat, d.outputDirectory.value);
      match PrepareBasePng(png, outputDir, w.screen, w.env, w.props, w.identify(png), w.resizeRan)
      case Err(f) => Err(f)
      case Ok(prepared) =>
        var run := AfterPreparing(prepared, w);
        RunBrowsersLines(d.browsers.value, d.svgFile.value, FileName(png, w.env.plat.sep), outputDir, prepared.baseline, run);
        match RunBrowsers(d.browsers.value, d.svgFile.value, FileName(png, w.env.plat.sep), outputDir, prepared.baseline, run)
        case Err(f) => Err(f)
        case Ok(lines) => Ok(lines + [OutputDirectoryPrefix + outputDir])
  }
}
