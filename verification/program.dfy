/**
 * The entry point (`main`): parse, check the inputs, launch, and turn the
 * first exception into the closing lines of the console output.
 */
module Program {
  import opened Outcomes
  import opened Files
  import opened Baseline
  import opened Arguments
  import opened Orchestrator

  const StartLine: string := "Starting work..."
  const StoppedLine: string := "Working stopped with ERROR!"
  const StoppedSeeLogLine: string := "Working stopped with ERROR! For more information see logger.log file!"

  /**
   * The catch blocks of `main`: an `IllegalArgumentException` prints its
   * message and a short stop line; any other exception only the stop line
   * that points to the log.
   */
  function Report(f: Failure): (lines: seq<string>)
    ensures f.IllegalArgument? ==> lines == [f.message, StoppedLine]
    ensures !f.IllegalArgument? ==> lines == [StoppedSeeLogLine]
  {
    match f
    case IllegalArgument(message) => [message, StoppedLine]
    case _ => [StoppedSeeLogLine]
  }

  /** What an accepted command line prints: `VQCT(data).launch()` and its exceptions. */
  function Proceed(d: ArgumentsData, w: World): seq<string>
    requires LaunchReady(d) && ValidScreen(w.screen)
  {
    match CheckInputs(d, w)
    case Err(f) => Report(f)
    case Ok(_) =>
      match Launch(d, w)
      case Err(f) => Report(f)
      case Ok(lines) => lines
  }

  /** Everything after the first line. */
  function RunLines(args: seq<string>, w: World): seq<string>
    requires ValidScreen(w.screen)
  {
    match ParseArguments(args, w.env)
    case Err(f) => Report(f)
    case Ok(d) =>
      ParsedIsLaunchReady(args, w.env);
      Proceed(d, w)
  }

  /**
   * `main(args)`: the console output of one run. It always starts with
   * "Starting work..."; a rejected command line prints the parser's message
   * and "Working stopped with ERROR!"; every later failure prints only the
   * line that points to the log; a successful run ends with the output
   * directory.
   */
  function Main(args: seq<string>, w: World): (out: seq<string>)
    requires ValidScreen(w.screen)
    ensures |out| >= 1 && out[0] == StartLine
    ensures ParseArguments(args, w.env).Err? ==>
      out == [StartLine, ParseArguments(args, w.env).failure.message, StoppedLine]
    ensures ParseArguments(args, w.env).Ok? ==>
      LaunchReady(ParseArguments(args, w.env).value) && out == [StartLine] + Proceed(ParseArguments(args, w.env).value, w)
  {
    [StartLine] + RunLines(args, w)
  }

  /**
   * Once the command line is accepted, a failing input check or launch ends
   * the output with the log-pointing stop line alone; otherwise the launch's
   * lines are printed as they are.
   */
  lemma LaterFailuresPointToLog(d: ArgumentsData, w: World)
    requires LaunchReady(d) && ValidScreen(w.screen)
    ensures CheckInputs(d, w).Err? || Launch(d, w).Err? ==> Proceed(d, w) == [StoppedSeeLogLine]
    ensures CheckInputs(d, w).Ok? && Launch(d, w).Ok? ==> Proceed(d, w) == Launch(d, w).value
  {
  }

  /** With no arguments, the usage text is printed between the start and stop lines. */
  lemma NoArgumentsPrintUsage(w: World)
    requires ValidScreen(w.screen)
    ensures Main([], w) == [StartLine, UsageMessage, StoppedLine]
  {
  }

  /**
   * In this model `--setup` alone prints nothing after the start line: the
   * setup wizard that `ProgramSettings` then runs, with its own console
   * dialogue, is not part of the model.
   */
  lemma SetupAlonePrintsOnlyStart(args: seq<string>, w: World)
    requires ValidScreen(w.screen)
    ensures ParseArguments(args, w.env) == Ok(SetupOnly) ==> Main(args, w) == [StartLine]
  {
  }

  /**
   * A run that gets through the input checks and the baseline prints one line
   * per visited browser and then "Output directory: ...".
   */
  lemma CompletedRunEndsWithOutputDirectory(d: ArgumentsData, w: World)
    requires LaunchReady(d) && ValidScreen(w.screen)
    ensures !SetupWithoutFiles(d) && CheckInputs(d, w).Ok? && Launch(d, w).Ok? ==>
      var out := Proceed(d, w);
      && |out| == 1 + |Visited(d.browsers.value, w.env.plat.os)|
      && out[|out| - 1] == OutputDirectoryPrefix + AbsolutePath(w.env.plat, d.outputDirectory.value)
  {
  }
}
