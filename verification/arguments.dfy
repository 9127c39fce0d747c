/**
 * The command-line parser (`parseArguments` and `ArgumentsData`). Two passes
 * over the arguments: the first finds `--help`, `--setup` and the svg and png
 * files, the second reads the `--` keys. Every rejection is an
 * `IllegalArgumentException`, which `main` prints verbatim.
 */
module Arguments {
  import opened Outcomes
  import opened Text
  import opened Files
  import opened Browsers
  import opened Naming

  /** `ArgumentsData`: every field is nullable in the program, here an `Option`. */
  datatype ArgumentsData = ArgumentsData(
    svgFile: Option<string>,
    basePngFile: Option<string>,
    outputDirectory: Option<string>,
    settingsFile: Option<string>,
    isSetup: bool,
    browsers: Option<seq<string>>)

  /** The usage text, one entry per line after the common indentation is trimmed. */
  const UsageLines: seq<string> := [
    "Argument list error!",
    "",
    "Usage: [keys] <path_to_svg_file> <path_to_base_png_file>",
    "",
    "Overview:",
    "",
    "[keys]",
    "",
    "--setup - running setup wizard.",
    "",
    "--load-settings=<path_to_file_settings> - start the program with an alternative path to the settings file.",
    "",
    "--browsers=<list_browsers> - run the program with a list of browsers that should be launched to load svg and taking screenshot.",
    "Browsers list are separated by commas. Valid values for this key: chrome, firefox, opera, ie. Example: --browsers=opera,ie",
    "",
    "--out=<path_to_output_screenshot_dir> - full path to output directory for screenshots.",
    "If directory is not existing then directory and subdirectories automatically is created.",
    "If path is not specified then screenshots will be storage in {current_execute_dir}/{file_name_with_ext}_screenshots",
    "",
    "<path_to_svg_file> - path to SVG file. Example: /home/user/pics/svg_file.svg.",
    "If full path is not specified then used {current_execute_dir}/svg_file.svg.",
    "",
    "<path_to_base_png_file> - path to base (control) PNG file. Example: /home/user/pics/base_png_file.png.",
    "If full path is not specified then used {current_execute_dir}/base_png_file.png."
  ]

  const UsageMessage: string := Join(UsageLines, '\n')

  const NotSpecifiedMessage: string :=
    "ERROR: Not specified SVG file or Base PNG file! Must be specified minimum two arguments <path_to_svg_file> <path_to_png_file>"

  const InvalidSettingsKeyMessage: string :=
    "ERROR: Invalid key value --load-settings. Must be --load-settings=<path_to_properties_file>"

  const BrowsersHint: string :=
    "Must be --browsers=<list_of_browsers>. Browsers list are separated by commas. Valid values for this key: chrome, firefox, opera, ie."

  const InvalidBrowsersKeyMessage: string := "ERROR: Invalid key value --browsers. " + BrowsersHint

  const InvalidOutKeyMessage: string := "ERROR: Invalid key value --out. Must be --out=<path_to_output_screenshot_dir>."

  const ScreenshotsSuffix: string := "_screenshots"

  function MissingFileMessage(plat: Platform, path: string): string {
    "ERROR: File " + AbsolutePath(plat, path) + " is not found!"
  }

  function InvalidPropertiesMessage(plat: Platform, path: string): string {
    "ERROR: Invalid properties file " + AbsolutePath(plat, path) + "!"
  }

  function PropertiesNotFoundMessage(plat: Platform, path: string): string {
    "ERROR: Properties file " + AbsolutePath(plat, path) + " is not found!"
  }

  function InvalidBrowserMessage(name: string): string {
    "ERROR: Invalid value \"" + name + "\" for key --browsers. " + BrowsersHint
  }

  function InvalidInputMessage(arg: string): string {
    "Invalid input data \"" + arg + "\".\n" + UsageMessage
  }

  predicate IsSvgArg(a: string) {
    EndsWithIgnoreCase(a, ".svg")
  }

  predicate IsPngArg(a: string) {
    EndsWithIgnoreCase(a, ".png")
  }

  predicate IsHelp(a: string) {
    Lower(a) == "--help"
  }

  predicate IsSetupKey(a: string) {
    Lower(a) == "--setup"
  }

  /** An argument the first pass accepts: not `--help`, and naming an existing file if it looks like one. */
  predicate FirstPassAccepts(a: string, env: Env) {
    !IsHelp(a) && (IsSvgArg(a) ==> env.fileExists(a)) && (IsPngArg(a) ==> env.fileExists(a))
  }

  /** Why the first pass rejects an argument: `--help` first, then a missing file. */
  function FirstPassFailure(a: string, env: Env): Failure {
    if IsHelp(a) then IllegalArgument(UsageMessage) else IllegalArgument(MissingFileMessage(env.plat, a))
  }

  /** What the first pass has found so far. */
  datatype FileScan = FileScan(svg: Option<string>, png: Option<string>, setup: bool)

  /** Every file the first pass kept has the right suffix and exists. */
  predicate FilesChecked(s: FileScan, env: Env) {
    && (s.svg.Some? ==> IsSvgArg(s.svg.value) && env.fileExists(s.svg.value))
    && (s.png.Some? ==> IsPngArg(s.png.value) && env.fileExists(s.png.value))
  }

  /** The position of the last argument satisfying `p`, or -1 when none does. */
  function LastIndex(args: seq<string>, p: string -> bool): (i: int)
    ensures -1 <= i < |args|
    ensures i >= 0 ==> p(args[i])
    ensures forall j :: i < j < |args| ==> !p(args[j])
    decreases |args|
  {
    if |args| == 0 then -1
    else if p(args[|args| - 1]) then |args| - 1
    else LastIndex(args[..|args| - 1], p)
  }

  /** The last argument satisfying `p`, if any. */
  function LastOf(args: seq<string>, p: string -> bool): Option<string> {
    var i := LastIndex(args, p);
    if i < 0 then None else Some(args[i])
  }

  /** The last matching position is the only one with no match after it. */
  lemma LastIndexUnique(args: seq<string>, p: string -> bool, k: int)
    requires -1 <= k < |args| && (k >= 0 ==> p(args[k]))
    requires forall j :: k < j < |args| ==> !p(args[j])
    ensures k == LastIndex(args, p)
  {
    var i := LastIndex(args, p);
    if i < k {
      assert false;
    } else if k < i {
      assert false;
    }
  }

  /** Seen from the front: the last match lies in the tail, or else is the head itself. */
  lemma LastIndexCons(args: seq<string>, p: string -> bool)
    requires |args| > 0
    ensures var t := LastIndex(args[1..], p);
      LastIndex(args, p) == if t >= 0 then t + 1 else if p(args[0]) then 0 else -1
  {
    var t := LastIndex(args[1..], p);
    var k := if t >= 0 then t + 1 else if p(args[0]) then 0 else -1;
    forall j | k < j < |args| ensures !p(args[j]) {
      if j > 0 {
        assert args[j] == args[1..][j - 1];
      }
    }
    if t >= 0 {
      assert args[k] == args[1..][t];
    }
    LastIndexUnique(args, p, k);
  }

  /** One step of a left fold that keeps the last match: the head counts only when no match follows. */
  lemma LastOfStep(args: seq<string>, p: string -> bool, fallback: Option<string>, next: Option<string>, got: Option<string>)
    requires |args| > 0
    requires next == (if p(args[0]) then Some(args[0]) else fallback)
    requires got == (if LastIndex(args[1..], p) < 0 then next else LastOf(args[1..], p))
    ensures got == (if LastIndex(args, p) < 0 then fallback else LastOf(args, p))
  {
    LastIndexCons(args, p);
    var t := LastIndex(args[1..], p);
    if t >= 0 {
      assert args[t + 1] == args[1..][t];
    }
  }

  /** `got` is `value` of the last argument satisfying `p`, or `fallback` when none does. */
  ghost predicate KeepsLast<T>(args: seq<string>, p: string -> bool, value: string -> Option<T>, fallback: Option<T>, got: Option<T>) {
    var i := LastIndex(args, p);
    if i < 0 then got == fallback else value(args[i]).Some? && got == value(args[i])
  }

  lemma KeepsLastStep<T>(args: seq<string>, p: string -> bool, value: string -> Option<T>,
                         fallback: Option<T>, next: Option<T>, got: Option<T>)
    requires |args| > 0 && KeepsLast(args[1..], p, value, next, got)
    requires next == (if p(args[0]) then value(args[0]) else fallback)
    requires p(args[0]) ==> value(args[0]).Some?
    ensures KeepsLast(args, p, value, fallback, got)
  {
    LastIndexCons(args, p);
    var t := LastIndex(args[1..], p);
    if t >= 0 {
      assert args[t + 1] == args[1..][t];
    }
  }

  /** One step of the first pass: the checks of Main.kt lines 91-110, in order. */
  function ScanFile(a: string, env: Env, acc: FileScan): (r: Result<FileScan>)
    ensures r.Ok? <==> FirstPassAccepts(a, env)
    ensures r.Err? ==> r.failure == FirstPassFailure(a, env)
    ensures r.Ok? ==>
      && r.value.svg == (if IsSvgArg(a) then Some(a) else acc.svg)
      && r.value.png == (if IsPngArg(a) then Some(a) else acc.png)
      && r.value.setup == (acc.setup || IsSetupKey(a))
  {
    if IsHelp(a) then Err(IllegalArgument(UsageMessage))
    else
      var withSetup := if IsSetupKey(a) then acc.(setup := true) else acc;
      if IsSvgArg(a) && !env.fileExists(a) then Err(IllegalArgument(MissingFileMessage(env.plat, a)))
      else
        var withSvg := if IsSvgArg(a) then withSetup.(svg := Some(a)) else withSetup;
        if IsPngArg(a) && !env.fileExists(a) then Err(IllegalArgument(MissingFileMessage(env.plat, a)))
        else Ok(if IsPngArg(a) then withSvg.(png := Some(a)) else withSvg)
  }

  /**
   * The first pass (Main.kt lines 90-111): a left fold that stops at the first
   * rejected argument. A later svg (png) argument replaces an earlier one, so
   * the last of each kind is kept.
   */
  function ScanFiles(args: seq<string>, env: Env, acc: FileScan): (r: Result<FileScan>)
    ensures r.Ok? <==> forall i :: 0 <= i < |args| ==> FirstPassAccepts(args[i], env)
    ensures r.Err? ==> r.failure.IllegalArgument?
    ensures r.Ok? && FilesChecked(acc, env) ==> FilesChecked(r.value, env)
    ensures r.Ok? ==> (r.value.setup <==> acc.setup || exists i :: 0 <= i < |args| && IsSetupKey(args[i]))
    ensures r.Ok? ==> (r.value.svg.None? <==> acc.svg.None? && forall i :: 0 <= i < |args| ==> !IsSvgArg(args[i]))
    ensures r.Ok? ==> (r.value.png.None? <==> acc.png.None? && forall i :: 0 <= i < |args| ==> !IsPngArg(args[i]))
    ensures r.Ok? ==> r.value.svg == (if LastIndex(args, IsSvgArg) < 0 then acc.svg else LastOf(args, IsSvgArg))
    ensures r.Ok? ==> r.value.png == (if LastIndex(args, IsPngArg) < 0 then acc.png else LastOf(args, IsPngArg))
    decreases |args|
  {
    if |args| == 0 then Ok(acc)
    else match ScanFile(args[0], env, acc)
      case Err(f) => Err(f)
      case Ok(next) =>
        var r := ScanFiles(args[1..], env, next);
        assert forall i :: 0 < i < |args| ==> args[i] == args[1..][i - 1];
        if r.Ok? then
          LastOfStep(args, IsSvgArg, acc.svg, next.svg, r.value.svg);
          LastOfStep(args, IsPngArg, acc.png, next.png, r.value.png);
          r
        else r
  }

  /** What the second pass has found so far. */
  datatype KeyScan = KeyScan(settings: Option<string>, browsers: Option<seq<string>>, out: Option<string>)

  /** Every setting the second pass kept was validated. */
  predicate KeysChecked(k: KeyScan, env: Env) {
    && (k.settings.Some? ==> env.fileExists(k.settings.value) && Extension(k.settings.value, env.plat.sep) == "properties")
    && (k.browsers.Some? ==> forall i :: 0 <= i < |k.browsers.value| ==> ValueOf(k.browsers.value[i]).Some?)
  }

  /** `it.split("=")` has exactly two pieces and the second is not empty. */
  predicate HasKeyValue(a: string) {
    |Split(a, '=')| == 2 && Split(a, '=')[1] != ""
  }

  function KeyValue(a: string): string
    requires HasKeyValue(a)
  {
    Split(a, '=')[1]
  }

  /** The first name that is not a `Browsers` constant, if any. */
  function FirstInvalid(names: seq<string>): (r: Option<string>)
    ensures r.None? <==> forall i :: 0 <= i < |names| ==> ValueOf(names[i]).Some?
    ensures r.Some? ==> exists i :: 0 <= i < |names| && names[i] == r.value
                          && ValueOf(names[i]).None?
                          && forall j :: 0 <= j < i ==> ValueOf(names[j]).Some?
  {
    if |names| == 0 then None
    else if ValueOf(names[0]).None? then Some(names[0])
    else
      var r := FirstInvalid(names[1..]);
      assert forall i :: 0 < i < |names| ==> names[i] == names[1..][i - 1];
      if r.Some? then
        var k :| 0 <= k < |names[1..]| && names[1..][k] == r.value && ValueOf(names[1..][k]).None?
                 && forall j :: 0 <= j < k ==> ValueOf(names[1..][j]).Some?;
        assert names[k + 1] == r.value;
        r
      else r
  }

  /** `--load-settings=<file>` (Main.kt lines 126-142). */
  function LoadSettingsKey(a: string, env: Env, acc: KeyScan): (r: Result<KeyScan>)
    ensures !StartsWithIgnoreCase(a, "--load-settings") ==> r == Ok(acc)
    ensures r.Err? ==> r.failure.IllegalArgument?
    ensures StartsWithIgnoreCase(a, "--load-settings") ==>
      (r.Ok? <==> HasKeyValue(a) && env.fileExists(KeyValue(a)) && Extension(KeyValue(a), env.plat.sep) == "properties")
    ensures StartsWithIgnoreCase(a, "--load-settings") && r.Ok? ==> r.value == acc.(settings := Some(KeyValue(a)))
  {
    if !StartsWithIgnoreCase(a, "--load-settings") then Ok(acc)
    else if HasKeyValue(a) then
      var f := KeyValue(a);
      if env.fileExists(f) then
        if Extension(f, env.plat.sep) != "properties" then Err(IllegalArgument(InvalidPropertiesMessage(env.plat, f)))
        else Ok(acc.(settings := Some(f)))
      else Err(IllegalArgument(PropertiesNotFoundMessage(env.plat, f)))
    else Err(IllegalArgument(InvalidSettingsKeyMessage))
  }

  /** The browser names of `--browsers=<list>`: the value upper-cased and split on ','. */
  function BrowserList(a: string): seq<string>
    requires HasKeyValue(a)
  {
    Split(Upper(KeyValue(a)), ',')
  }

  /** `--browsers=<list>` (Main.kt lines 143-158): every name of the list is checked. */
  function BrowsersKey(a: string, acc: KeyScan): (r: Result<KeyScan>)
    ensures !StartsWithIgnoreCase(a, "--browsers") ==> r == Ok(acc)
    ensures r.Err? ==> r.failure.IllegalArgument?
    ensures StartsWithIgnoreCase(a, "--browsers") && !HasKeyValue(a) ==> r == Err(IllegalArgument(InvalidBrowsersKeyMessage))
    ensures StartsWithIgnoreCase(a, "--browsers") && HasKeyValue(a) ==>
      (r.Ok? <==> FirstInvalid(BrowserList(a)).None?)
    ensures StartsWithIgnoreCase(a, "--browsers") && HasKeyValue(a) && r.Ok? ==>
      r.value == acc.(browsers := Some(BrowserList(a)))
  {
    if !StartsWithIgnoreCase(a, "--browsers") then Ok(acc)
    else if HasKeyValue(a) then
      match FirstInvalid(BrowserList(a))
      case Some(name) => Err(IllegalArgument(InvalidBrowserMessage(name)))
      case None => Ok(acc.(browsers := Some(BrowserList(a))))
    else Err(IllegalArgument(InvalidBrowsersKeyMessage))
  }

  /**
   * The screenshot directory below `dir`: `<dir><stem>_screenshots` when `dir`
   * already ends in a separator, `<dir><sep><stem>_screenshots` otherwise.
   */
  function OutDir(dir: string, stem: string, sep: char): string {
    if EndsWith(dir, "/") || EndsWith(dir, "\\") then dir + stem + ScreenshotsSuffix
    else dir + [sep] + stem + ScreenshotsSuffix
  }

  /** `--out=<dir>` (Main.kt lines 159-170). */
  function OutKey(a: string, stem: string, sep: char, acc: KeyScan): (r: Result<KeyScan>)
    ensures !StartsWithIgnoreCase(a, "--out") ==> r == Ok(acc)
    ensures StartsWithIgnoreCase(a, "--out") ==>
      (r.Ok? <==> HasKeyValue(a)) && (r.Err? ==> r.failure == IllegalArgument(InvalidOutKeyMessage))
    ensures StartsWithIgnoreCase(a, "--out") && r.Ok? ==> r.value == acc.(out := Some(OutDir(KeyValue(a), stem, sep)))
  {
    if !StartsWithIgnoreCase(a, "--out") then Ok(acc)
    else
      LowerSplitCount(a);
      if |Split(Lower(a), '=')| == 2 && Split(a, '=')[1] != "" then
        Ok(acc.(out := Some(OutDir(Split(a, '=')[1], stem, sep))))
      else Err(IllegalArgument(InvalidOutKeyMessage))
  }

  /** Lower-casing keeps every '=', so it does not change how many pieces a split gives. */
  lemma LowerSplitCount(a: string)
    ensures |Split(Lower(a), '=')| == |Split(a, '=')|
  {
    SplitCount(a, '=');
    SplitCount(Lower(a), '=');
    LowerKeepsCount(a, '=');
  }

  lemma {:induction false} LowerKeepsCount(a: string, c: char)
    requires LowerChar(c) == c && forall x: char :: LowerChar(x) == c ==> x == c
    ensures multiset(Lower(a))[c] == multiset(a)[c]
    decreases |a|
  {
    if |a| > 0 {
      var t := a[..|a| - 1];
      assert a == t + [a[|a| - 1]];
      assert Lower(a) == Lower(t) + [LowerChar(a[|a| - 1])];
      LowerKeepsCount(t, c);
    }
  }

  /** A key argument of the second pass: not a file, "--", then `key` in any letter case. */
  predicate IsKeyOf(a: string, key: string) {
    !IsSvgArg(a) && !IsPngArg(a) && StartsWith(a, "--") && StartsWithIgnoreCase(a, key)
  }

  predicate IsSettingsArg(a: string) {
    IsKeyOf(a, "--load-settings")
  }

  predicate IsBrowsersArg(a: string) {
    IsKeyOf(a, "--browsers")
  }

  predicate IsOutArg(a: string) {
    IsKeyOf(a, "--out")
  }

  /** A prefix fixes the third character, ignoring case. */
  lemma ThirdCharOfPrefix(a: string, p: string)
    requires |p| > 2 && StartsWithIgnoreCase(a, p)
    ensures LowerChar(a[2]) == LowerChar(p[2])
  {
    assert Lower(a[..|p|])[2] == LowerChar(a[2]);
    assert Lower(p)[2] == LowerChar(p[2]);
  }

  /** The three keys differ in their third character, so an argument starts with at most one of them. */
  lemma KnownKeysExclusive(a: string)
    ensures !(StartsWithIgnoreCase(a, "--load-settings") && StartsWithIgnoreCase(a, "--browsers"))
    ensures !(StartsWithIgnoreCase(a, "--load-settings") && StartsWithIgnoreCase(a, "--out"))
    ensures !(StartsWithIgnoreCase(a, "--browsers") && StartsWithIgnoreCase(a, "--out"))
  {
    if StartsWithIgnoreCase(a, "--load-settings") {
      ThirdCharOfPrefix(a, "--load-settings");
    }
    if StartsWithIgnoreCase(a, "--browsers") {
      ThirdCharOfPrefix(a, "--browsers");
    }
    if StartsWithIgnoreCase(a, "--out") {
      ThirdCharOfPrefix(a, "--out");
    }
  }

  /**
   * One step of the second pass (Main.kt lines 124-175). A "--" argument is
   * handled by the one key step whose key it starts with, and any other "--"
   * argument, `--setup` among them, is ignored.
   */
  function ScanKey(a: string, env: Env, stem: string, acc: KeyScan): (r: Result<KeyScan>)
    ensures r.Err? ==> r.failure.IllegalArgument?
    ensures IsSvgArg(a) || IsPngArg(a) ==> r == Ok(acc)
    ensures !IsSvgArg(a) && !IsPngArg(a) && !StartsWith(a, "--") ==> r == Err(IllegalArgument(InvalidInputMessage(a)))
    ensures r.Ok? && KeysChecked(acc, env) ==> KeysChecked(r.value, env)
    ensures !IsSvgArg(a) && !IsPngArg(a) && StartsWith(a, "--") ==>
      && (StartsWithIgnoreCase(a, "--load-settings") ==> r == LoadSettingsKey(a, env, acc))
      && (StartsWithIgnoreCase(a, "--browsers") ==> r == BrowsersKey(a, acc))
      && (StartsWithIgnoreCase(a, "--out") ==> r == OutKey(a, stem, env.plat.sep, acc))
      && ((!StartsWithIgnoreCase(a, "--load-settings") && !StartsWithIgnoreCase(a, "--browsers")
           && !StartsWithIgnoreCase(a, "--out")) ==> r == Ok(acc))
    ensures r.Ok? && IsSettingsArg(a) ==> HasKeyValue(a) && r.value.settings == Some(KeyValue(a))
    ensures r.Ok? && !IsSettingsArg(a) ==> r.value.settings == acc.settings
    ensures r.Ok? && IsBrowsersArg(a) ==> HasKeyValue(a) && r.value.browsers == Some(BrowserList(a))
    ensures r.Ok? && !IsBrowsersArg(a) ==> r.value.browsers == acc.browsers
    ensures r.Ok? && IsOutArg(a) ==> HasKeyValue(a) && r.value.out == Some(OutDir(KeyValue(a), stem, env.plat.sep))
    ensures r.Ok? && !IsOutArg(a) ==> r.value.out == acc.out
  {
    KnownKeysExclusive(a);
    if IsPngArg(a) || IsSvgArg(a) then Ok(acc)
    else if StartsWith(a, "--") then
      match LoadSettingsKey(a, env, acc)
      case Err(f) => Err(f)
      case Ok(afterSettings) =>
        match BrowsersKey(a, afterSettings)
        case Err(f) => Err(f)
        case Ok(afterBrowsers) => OutKey(a, stem, env.plat.sep, afterBrowsers)
    else Err(IllegalArgument(InvalidInputMessage(a)))
  }

  /**
   * Each setting `k` holds comes from the last key argument of its kind, or is
   * `fallback`'s when there is none.
   */
  ghost predicate KeepsLastKeys(args: seq<string>, env: Env, stem: string, fallback: KeyScan, k: KeyScan) {
    && KeepsLast(args, IsSettingsArg, SettingsValue, fallback.settings, k.settings)
    && KeepsLast(args, IsBrowsersArg, BrowsersValue, fallback.browsers, k.browsers)
    && KeepsLast(args, IsOutArg, OutValue(stem, env.plat.sep), fallback.out, k.out)
  }

  /** The settings file a `--load-settings` argument names, when it has a value. */
  function SettingsValue(a: string): Option<string> {
    if HasKeyValue(a) then Some(KeyValue(a)) else None
  }

  /** The browser list a `--browsers` argument gives, when it has a value. */
  function BrowsersValue(a: string): Option<seq<string>> {
    if HasKeyValue(a) then Some(BrowserList(a)) else None
  }

  /** The output directory an `--out` argument gives for the svg stem, when it has a value. */
  function OutValue(stem: string, sep: char): string -> Option<string> {
    a => if HasKeyValue(a) then Some(OutDir(KeyValue(a), stem, sep)) else None
  }

  /** The second pass (Main.kt lines 123-176): later keys of a kind override earlier ones. */
  function ScanKeys(args: seq<string>, env: Env, stem: string, acc: KeyScan): (r: Result<KeyScan>)
    ensures r.Err? ==> r.failure.IllegalArgument?
    ensures r.Ok? && KeysChecked(acc, env) ==> KeysChecked(r.value, env)
    ensures r.Ok? ==> forall i :: 0 <= i < |args| ==> IsSvgArg(args[i]) || IsPngArg(args[i]) || StartsWith(args[i], "--")
    ensures r.Ok? ==> KeepsLastKeys(args, env, stem, acc, r.value)
    decreases |args|
  {
    if |args| == 0 then Ok(acc)
    else match ScanKey(args[0], env, stem, acc)
      case Err(f) => Err(f)
      case Ok(next) =>
        var r := ScanKeys(args[1..], env, stem, next);
        assert forall i :: 0 < i < |args| ==> args[i] == args[1..][i - 1];
        if r.Ok? then KeepsLastKeysStep(args, env, stem, acc, next, r.value); r else r
  }

  /** One step of the fold: a key at the head counts only when no key of its kind follows. */
  lemma KeepsLastKeysStep(args: seq<string>, env: Env, stem: string, acc: KeyScan, next: KeyScan, k: KeyScan)
    requires |args| > 0 && ScanKey(args[0], env, stem, acc) == Ok(next)
    requires KeepsLastKeys(args[1..], env, stem, next, k)
    ensures KeepsLastKeys(args, env, stem, acc, k)
  {
    var a := args[0];
    assert next.settings == (if IsSettingsArg(a) then SettingsValue(a) else acc.settings);
    assert next.browsers == (if IsBrowsersArg(a) then BrowsersValue(a) else acc.browsers);
    assert next.out == (if IsOutArg(a) then OutValue(stem, env.plat.sep)(a) else acc.out);
    KeepsLastStep(args, IsSettingsArg, SettingsValue, acc.settings, next.settings, k.settings);
    KeepsLastStep(args, IsBrowsersArg, BrowsersValue, acc.browsers, next.browsers, k.browsers);
    KeepsLastStep(args, IsOutArg, OutValue(stem, env.plat.sep), acc.out, next.out, k.out);
  }

  /** The directory used when `--out` is absent: `<user.dir><sep><stem>_screenshots`. */
  function DefaultOutDir(plat: Platform, stem: string): string {
    plat.userDir + [plat.sep] + stem + ScreenshotsSuffix
  }

  /** The settings when no key gives them: no settings file, every browser, `<user.dir><sep><stem>_screenshots`. */
  function Defaults(plat: Platform, stem: string): KeyScan {
    KeyScan(None, Some(DefaultNames()), Some(DefaultOutDir(plat, stem)))
  }

  /** A setting no key gave is filled in from the defaults. */
  lemma FallBackToDefaults(args: seq<string>, env: Env, stem: string, k: KeyScan)
    requires KeepsLastKeys(args, env, stem, KeyScan(None, None, None), k)
    ensures KeepsLastKeys(args, env, stem, Defaults(env.plat, stem),
                          KeyScan(k.settings, Some(k.browsers.GetOr(DefaultNames())),
                                  Some(k.out.GetOr(DefaultOutDir(env.plat, stem)))))
  {
  }

  /** The result for `--setup` alone: nothing but the flag is set. */
  const SetupOnly: ArgumentsData := ArgumentsData(None, None, None, None, true, None)

  /**
   * What `VQCT` relies on: either the setup-only result, or both files, the
   * output directory and the browser list are set. Every kept file was
   * checked and every browser name is a `Browsers` constant.
   */
  predicate WellFormed(d: ArgumentsData, env: Env) {
    || d == SetupOnly
    || (&& d.svgFile.Some? && IsSvgArg(d.svgFile.value) && env.fileExists(d.svgFile.value)
        && d.basePngFile.Some? && IsPngArg(d.basePngFile.value) && env.fileExists(d.basePngFile.value)
        && d.outputDirectory.Some?
        && d.browsers.Some?
        && (forall i :: 0 <= i < |d.browsers.value| ==> ValueOf(d.browsers.value[i]).Some?)
        && (d.settingsFile.Some? ==>
              env.fileExists(d.settingsFile.value) && Extension(d.settingsFile.value, env.plat.sep) == "properties"))
  }

  /**
   * `parseArguments(args)`: the first pass, the check that both files were
   * given (or `--setup` alone), the second pass, then the defaults for the
   * output directory and the browser list.
   */
  function ParseArguments(args: seq<string>, env: Env): (r: Result<ArgumentsData>)
    ensures |args| == 0 ==> r == Err(IllegalArgument(UsageMessage))
    ensures r.Err? ==> r.failure.IllegalArgument?
    ensures r.Ok? ==> WellFormed(r.value, env)
    ensures r.Ok? ==> forall i :: 0 <= i < |args| ==> FirstPassAccepts(args[i], env)
    ensures r.Ok? ==> (r.value.isSetup <==> exists i :: 0 <= i < |args| && IsSetupKey(args[i]))
    ensures r.Ok? && r.value != SetupOnly ==>
      && r.value.svgFile == LastOf(args, IsSvgArg)
      && r.value.basePngFile == LastOf(args, IsPngArg)
      && var stem := Stem(r.value.svgFile.value, env.plat.sep);
         KeepsLastKeys(args, env, stem, Defaults(env.plat, stem),
                       KeyScan(r.value.settingsFile, r.value.browsers, r.value.outputDirectory))
  {
    if |args| == 0 then Err(IllegalArgument(UsageMessage))
    else match ScanFiles(args, env, FileScan(None, None, false))
      case Err(f) => Err(f)
      case Ok(s) =>
        if (s.svg.None? || s.png.None?) && !s.setup then Err(IllegalArgument(NotSpecifiedMessage))
        else if s.svg.None? && s.png.None? && s.setup then Ok(SetupOnly)
        else if (s.svg.None? || s.png.None?) && s.setup then Err(IllegalArgument(NotSpecifiedMessage))
        else
          var stem := Stem(s.svg.value, env.plat.sep);
          match ScanKeys(args, env, stem, KeyScan(None, None, None))
          case Err(f) => Err(f)
          case Ok(k) =>
            DefaultNamesAreValid();
            FallBackToDefaults(args, env, stem, k);
            Ok(ArgumentsData(s.svg, s.png, Some(k.out.GetOr(DefaultOutDir(env.plat, stem))), k.settings, s.setup,
                             Some(k.browsers.GetOr(DefaultNames()))))
  }

  /**
   * The first pass reports the first argument it rejects: `--help` as the
   * usage text, a missing svg or png as "ERROR: File ... is not found!".
   */
  lemma {:induction false} ScanFilesStopsAtFirst(args: seq<string>, env: Env, acc: FileScan, i: int)
    requires 0 <= i < |args| && !FirstPassAccepts(args[i], env)
    requires forall j :: 0 <= j < i ==> FirstPassAccepts(args[j], env)
    ensures ScanFiles(args, env, acc) == Err(FirstPassFailure(args[i], env))
    decreases i
  {
    if i > 0 {
      var next := ScanFile(args[0], env, acc);
      assert next.Ok? by { assert FirstPassAccepts(args[0], env); }
      assert forall j :: 0 <= j < i - 1 ==> args[1..][j] == args[j + 1];
      ScanFilesStopsAtFirst(args[1..], env, next.value, i - 1);
    }
  }

  /** `parseArguments` rejects with the first pass's reason for its first rejected argument. */
  lemma ParseStopsAtFirstRejected(args: seq<string>, env: Env, i: int)
    requires 0 <= i < |args| && !FirstPassAccepts(args[i], env)
    requires forall j :: 0 <= j < i ==> FirstPassAccepts(args[j], env)
    ensures ParseArguments(args, env) == Err(FirstPassFailure(args[i], env))
  {
    ScanFilesStopsAtFirst(args, env, FileScan(None, None, false), i);
  }

  /** Whether a key argument is rejected, and why, does not depend on the keys read before it. */
  lemma ScanKeyFailureIgnoresAcc(a: string, env: Env, stem: string, acc: KeyScan, acc2: KeyScan)
    ensures ScanKey(a, env, stem, acc).Err? == ScanKey(a, env, stem, acc2).Err?
    ensures ScanKey(a, env, stem, acc).Err? ==> ScanKey(a, env, stem, acc).failure == ScanKey(a, env, stem, acc2).failure
  {
  }

  /** The rejection of the first key argument the second pass rejects, read with no keys before it. */
  function FirstKeyFailure(args: seq<string>, env: Env, stem: string): Option<Failure>
    decreases |args|
  {
    if |args| == 0 then None
    else
      var step := ScanKey(args[0], env, stem, KeyScan(None, None, None));
      if step.Err? then Some(step.failure) else FirstKeyFailure(args[1..], env, stem)
  }

  /**
   * The second pass fails exactly when some key argument is rejected, and then
   * with the first such rejection, whatever keys came before it.
   */
  lemma {:induction false} ScanKeysStopsAtFirst(args: seq<string>, env: Env, stem: string, acc: KeyScan)
    ensures ScanKeys(args, env, stem, acc).Err? <==> FirstKeyFailure(args, env, stem).Some?
    ensures ScanKeys(args, env, stem, acc).Err? ==>
      ScanKeys(args, env, stem, acc).failure == FirstKeyFailure(args, env, stem).value
    decreases |args|
  {
    if |args| > 0 {
      ScanKeysUnfold(args, env, stem, acc);
      ScanKeyFailureIgnoresAcc(args[0], env, stem, acc, KeyScan(None, None, None));
      var step := ScanKey(args[0], env, stem, acc);
      if step.Ok? {
        ScanKeysStopsAtFirst(args[1..], env, stem, step.value);
      }
    }
  }

  lemma ScanKeysUnfold(args: seq<string>, env: Env, stem: string, acc: KeyScan)
    requires |args| > 0
    ensures ScanKey(args[0], env, stem, acc).Err? ==>
      ScanKeys(args, env, stem, acc) == Err(ScanKey(args[0], env, stem, acc).failure)
    ensures ScanKey(args[0], env, stem, acc).Ok? ==>
      ScanKeys(args, env, stem, acc) == ScanKeys(args[1..], env, stem, ScanKey(args[0], env, stem, acc).value)
  {
  }

  /**
   * Once the first pass has found both files, `parseArguments` fails exactly
   * when the second pass rejects a key argument, and with the first rejection.
   */
  lemma ParseStopsAtFirstRejectedKey(args: seq<string>, env: Env)
    requires forall j :: 0 <= j < |args| ==> FirstPassAccepts(args[j], env)
    requires LastIndex(args, IsSvgArg) >= 0 && LastIndex(args, IsPngArg) >= 0
    ensures var stem := Stem(args[LastIndex(args, IsSvgArg)], env.plat.sep);
      var failure := FirstKeyFailure(args, env, stem);
      && (ParseArguments(args, env).Err? <==> failure.Some?)
      && (failure.Some? ==> ParseArguments(args, env) == Err(failure.value))
  {
    var stem := Stem(args[LastIndex(args, IsSvgArg)], env.plat.sep);
    var files := ScanFiles(args, env, FileScan(None, None, false));
    assert files.Ok? && files.value.svg == Some(args[LastIndex(args, IsSvgArg)]) && files.value.png.Some?;
    ScanKeysStopsAtFirst(args, env, stem, KeyScan(None, None, None));
  }

  /** An `--out` key without exactly one non-empty value is rejected, wherever it stands. */
  lemma OutKeyNeedsValue(a: string, env: Env, stem: string, acc: KeyScan)
    ensures IsOutArg(a) && !HasKeyValue(a) ==> ScanKey(a, env, stem, acc) == Err(IllegalArgument(InvalidOutKeyMessage))
  {
  }

  /** "--out" and "--out=" in front of the files are both rejected as an invalid `--out` value. */
  lemma OutKeyWithoutValueRejected(key: string, svg: string, png: string, env: Env)
    requires key == "--out" || key == "--out="
    requires IsSvgArg(svg) && env.fileExists(svg)
    requires IsPngArg(png) && env.fileExists(png)
    ensures ParseArguments([key, svg, png], env) == Err(IllegalArgument(InvalidOutKeyMessage))
  {
    var args := [key, svg, png];
    var stem := Stem(svg, env.plat.sep);
    BareOutKey(key);
    OutKeyNeedsValue(key, env, stem, KeyScan(None, None, None));
    ScanFilesKeyFirst(key, svg, png, env);
    ScanKeysUnfold(args, env, stem, KeyScan(None, None, None));
    ParseOfFailedKeys(args, env, FileScan(Some(svg), Some(png), false), IllegalArgument(InvalidOutKeyMessage));
  }

  /** Once the first pass has found both files, a failing second pass is the result. */
  lemma ParseOfFailedKeys(args: seq<string>, env: Env, files: FileScan, f: Failure)
    requires |args| > 0
    requires ScanFiles(args, env, FileScan(None, None, false)) == Ok(files)
    requires files.svg.Some? && files.png.Some?
    requires ScanKeys(args, env, Stem(files.svg.value, env.plat.sep), KeyScan(None, None, None)) == Err(f)
    ensures ParseArguments(args, env) == Err(f)
  {
  }

  /** "--out" and "--out=" are `--out` keys without a value. */
  lemma BareOutKey(key: string)
    requires key == "--out" || key == "--out="
    ensures !IsSvgArg(key) && !IsPngArg(key) && !IsHelp(key) && !IsSetupKey(key)
    ensures IsOutArg(key) && !HasKeyValue(key)
  {
    assert Lower(key)[2] == 'o';
    assert Lower(key[|key| - 4..])[1] != 's' && Lower(key[|key| - 4..])[1] != 'p';
    assert key[..2] == "--";
    assert key[..5] == "--out";
    if key == "--out" {
      assert Join(["--out"], '=') == "--out";
      SplitJoin(["--out"], '=');
    } else {
      assert Join(["--out", ""], '=') == "--out=";
      SplitJoin(["--out", ""], '=');
    }
  }

  /** A key in front of an existing svg and png leaves the first pass with both files. */
  lemma ScanFilesKeyFirst(key: string, svg: string, png: string, env: Env)
    requires !IsSvgArg(key) && !IsPngArg(key) && !IsHelp(key) && !IsSetupKey(key)
    requires IsSvgArg(svg) && env.fileExists(svg)
    requires IsPngArg(png) && env.fileExists(png)
    ensures ScanFiles([key, svg, png], env, FileScan(None, None, false)) == Ok(FileScan(Some(svg), Some(png), false))
  {
    var init := FileScan(None, None, false);
    assert ScanFile(key, env, init) == Ok(init);
    assert [key, svg, png][1..] == [svg, png];
    var files := ScanBothFiles(svg, png, env);
  }

  /** `--help`, in any letter case, after arguments the first pass accepts, gives the usage text. */
  lemma HelpGivesUsage(args: seq<string>, env: Env, i: int)
    requires 0 <= i < |args| && Lower(args[i]) == "--help"
    requires forall j :: 0 <= j < i ==> FirstPassAccepts(args[j], env)
    ensures ParseArguments(args, env) == Err(IllegalArgument(UsageMessage))
  {
    ParseStopsAtFirstRejected(args, env, i);
  }

  /** An svg or png argument naming no existing file, after accepted arguments, is reported by its absolute path. */
  lemma MissingFileReported(args: seq<string>, env: Env, i: int)
    requires 0 <= i < |args| && (IsSvgArg(args[i]) || IsPngArg(args[i])) && !env.fileExists(args[i])
    requires forall j :: 0 <= j < i ==> FirstPassAccepts(args[j], env)
    ensures ParseArguments(args, env) == Err(IllegalArgument(MissingFileMessage(env.plat, args[i])))
  {
    LooksLikeFileIsNotKey(args[i]);
    ParseStopsAtFirstRejected(args, env, i);
  }

  /** A name ending in ".svg" or ".png" is neither `--help` nor `--setup`, and not both kinds at once. */
  lemma LooksLikeFileIsNotKey(a: string)
    ensures IsSvgArg(a) || IsPngArg(a) ==> !IsHelp(a) && !IsSetupKey(a)
    ensures !(IsSvgArg(a) && IsPngArg(a))
  {
    if |a| >= 4 {
      var tail := Lower(a[|a| - 4..]);
      assert tail[1] == Lower(a)[|a| - 3];
      assert tail[3] == Lower(a)[|a| - 1];
      if IsSvgArg(a) {
        assert tail[1] == Lower(".svg")[1] == 's';
      }
      if IsPngArg(a) {
        assert tail[3] == Lower(".png")[3] == 'g';
      }
    }
  }

  /**
   * With `--setup` and no svg or png argument the result has only `isSetup`
   * set; no file, directory, settings file or browser list.
   */
  lemma SetupAloneGivesSetupOnly(args: seq<string>, env: Env)
    requires |args| > 0
    requires forall i :: 0 <= i < |args| ==> FirstPassAccepts(args[i], env) && !IsSvgArg(args[i]) && !IsPngArg(args[i])
    requires exists i :: 0 <= i < |args| && IsSetupKey(args[i])
    ensures ParseArguments(args, env) == Ok(SetupOnly)
  {
  }

  /**
   * "ERROR: Not specified SVG file or Base PNG file!" in its two cases: a file
   * missing without `--setup`, or exactly one of them given with `--setup`.
   */
  lemma MissingInputNotSpecified(args: seq<string>, env: Env)
    requires |args| > 0
    requires forall i :: 0 <= i < |args| ==> FirstPassAccepts(args[i], env)
    requires var noSvg := forall i :: 0 <= i < |args| ==> !IsSvgArg(args[i]);
             var noPng := forall i :: 0 <= i < |args| ==> !IsPngArg(args[i]);
             var setup := exists i :: 0 <= i < |args| && IsSetupKey(args[i]);
             (!setup && (noSvg || noPng)) || (setup && noSvg != noPng)
    ensures ParseArguments(args, env) == Err(IllegalArgument(NotSpecifiedMessage))
  {
  }

  /**
   * Just an svg and a png, both existing: the output directory defaults to
   * `<user.dir><sep><svg name, '.'→'_'>_screenshots` and the browser list to
   * every `Browsers` constant in declaration order.
   */
  lemma TwoFilesGetDefaults(svg: string, png: string, env: Env)
    requires IsSvgArg(svg) && env.fileExists(svg)
    requires IsPngArg(png) && env.fileExists(png)
    ensures ParseArguments([svg, png], env)
            == Ok(ArgumentsData(Some(svg), Some(png),
                                Some(env.plat.userDir + [env.plat.sep] + Stem(svg, env.plat.sep) + "_screenshots"),
                                None, false, Some(["CHROME", "FIREFOX", "OPERA", "IE"])))
  {
    TwoFilesParse(svg, png, env);
    DefaultNamesAreValid();
    assert DefaultOutDir(env.plat, Stem(svg, env.plat.sep))
           == env.plat.userDir + [env.plat.sep] + Stem(svg, env.plat.sep) + "_screenshots";
  }

  /** The two files alone leave every key at its default. */
  lemma TwoFilesParse(svg: string, png: string, env: Env)
    requires IsSvgArg(svg) && env.fileExists(svg)
    requires IsPngArg(png) && env.fileExists(png)
    ensures var stem := Stem(svg, env.plat.sep);
      ParseArguments([svg, png], env)
      == Ok(ArgumentsData(Some(svg), Some(png), Some(DefaultOutDir(env.plat, stem)), None, false, Some(DefaultNames())))
  {
    var stem := Stem(svg, env.plat.sep);
    var none := KeyScan(None, None, None);
    var files := ScanBothFiles(svg, png, env);
    assert ScanKey(svg, env, stem, none) == Ok(none);
    assert ScanKey(png, env, stem, none) == Ok(none);
    PassingPairPassesKeys(svg, png, env, stem, none);
    ParseOfScans([svg, png], env, files, none);
  }

  /** Two arguments the second pass leaves alone leave it alone together. */
  lemma PassingPairPassesKeys(a: string, b: string, env: Env, stem: string, acc: KeyScan)
    requires ScanKey(a, env, stem, acc) == Ok(acc) && ScanKey(b, env, stem, acc) == Ok(acc)
    ensures ScanKeys([a, b], env, stem, acc) == Ok(acc)
  {
    assert [a, b][1..] == [b];
    assert [b][1..] == [];
    assert ScanKeys([b], env, stem, acc) == Ok(acc);
  }

  /** Once both passes succeed with both files named, the result is assembled from the two scans. */
  lemma ParseOfScans(args: seq<string>, env: Env, files: FileScan, keys: KeyScan)
    requires |args| > 0
    requires ScanFiles(args, env, FileScan(None, None, false)) == Ok(files)
    requires files.svg.Some? && files.png.Some?
    requires ScanKeys(args, env, Stem(files.svg.value, env.plat.sep), KeyScan(None, None, None)) == Ok(keys)
    ensures ParseArguments(args, env)
            == Ok(ArgumentsData(files.svg, files.png,
                                Some(keys.out.GetOr(DefaultOutDir(env.plat, Stem(files.svg.value, env.plat.sep)))),
                                keys.settings, files.setup, Some(keys.browsers.GetOr(DefaultNames()))))
  {
  }

  /** The first pass over an existing svg followed by an existing png keeps both. */
  lemma ScanBothFiles(svg: string, png: string, env: Env) returns (s: FileScan)
    requires IsSvgArg(svg) && env.fileExists(svg)
    requires IsPngArg(png) && env.fileExists(png)
    ensures s == FileScan(Some(svg), Some(png), false)
    ensures ScanFiles([svg, png], env, FileScan(None, None, false)) == Ok(s)
  {
    LooksLikeFileIsNotKey(svg);
    LooksLikeFileIsNotKey(png);
    s := FileScan(Some(svg), Some(png), false);
    assert !IsPngArg(svg) && !IsHelp(svg) && !IsSetupKey(svg);
    assert !IsSvgArg(png) && !IsHelp(png) && !IsSetupKey(png);
    assert ScanFile(svg, env, FileScan(None, None, false)) == Ok(FileScan(Some(svg), None, false));
    assert ScanFile(png, env, FileScan(Some(svg), None, false)) == Ok(s);
    assert ScanFiles([png], env, FileScan(Some(svg), None, false)) == Ok(s) by {
      assert [png][1..] == [];
      assert ScanFiles([png][1..], env, s) == Ok(s);
    }
    assert [svg, png][1..] == [png];
  }

  /** A third character that differs, ignoring case, rules out a prefix. */
  lemma ThirdCharRulesOut(a: string, p: string)
    requires |a| > 2 && |p| > 2 && LowerChar(a[2]) != LowerChar(p[2])
    ensures !StartsWithIgnoreCase(a, p)
  {
    if |p| <= |a| {
      assert Lower(a[..|p|])[2] == LowerChar(a[2]);
      assert Lower(p)[2] == LowerChar(p[2]);
    }
  }

  /** `--help` and `--setup` both start with "--". */
  lemma FlagsStartWithDashes(a: string)
    ensures IsHelp(a) || IsSetupKey(a) ==> StartsWith(a, "--")
  {
    if IsHelp(a) || IsSetupKey(a) {
      assert Lower(a)[0] == '-' && Lower(a)[1] == '-';
      assert a[..2] == "--";
    }
  }

  /** The facts about `<key>=<value>` the second pass depends on, for the three keys it knows. */
  lemma KeyArgument(keyEq: string, v: string)
    requires keyEq == "--out=" || keyEq == "--browsers=" || keyEq == "--load-settings="
    requires '=' !in v && v != ""
    ensures var a := keyEq + v;
      && !IsHelp(a) && !IsSetupKey(a) && StartsWith(a, "--")
      && HasKeyValue(a) && KeyValue(a) == v
      && (StartsWithIgnoreCase(a, "--out") <==> keyEq == "--out=")
      && (StartsWithIgnoreCase(a, "--browsers") <==> keyEq == "--browsers=")
      && (StartsWithIgnoreCase(a, "--load-settings") <==> keyEq == "--load-settings=")
  {
    KeyValueOf(keyEq, v);
    KeyPrefixes(keyEq, v);
  }

  /** Splitting `<key>=<value>` on '=' gives the key and the value. */
  lemma KeyValueOf(keyEq: string, v: string)
    requires keyEq == "--out=" || keyEq == "--browsers=" || keyEq == "--load-settings="
    requires '=' !in v && v != ""
    ensures HasKeyValue(keyEq + v) && KeyValue(keyEq + v) == v
  {
    var key := keyEq[..|keyEq| - 1];
    assert keyEq == key + "=";
    assert keyEq + v == Join([key, v], '=');
    assert '=' !in key;
    SplitJoin([key, v], '=');
  }

  /** Which of the known prefixes `<key>=<value>` starts with, ignoring case. */
  lemma KeyPrefixes(keyEq: string, v: string)
    requires keyEq == "--out=" || keyEq == "--browsers=" || keyEq == "--load-settings="
    ensures var a := keyEq + v;
      && !IsHelp(a) && !IsSetupKey(a) && StartsWith(a, "--")
      && (StartsWithIgnoreCase(a, "--out") <==> keyEq == "--out=")
      && (StartsWithIgnoreCase(a, "--browsers") <==> keyEq == "--browsers=")
      && (StartsWithIgnoreCase(a, "--load-settings") <==> keyEq == "--load-settings=")
  {
    var a := keyEq + v;
    assert a[..|keyEq|] == keyEq;
    assert a[..2] == "--";
    assert Lower(a)[2] == LowerChar(a[2]) == keyEq[2];
    assert Lower(a) != "--help" && Lower(a) != "--setup" by {
      assert "--help"[2] != keyEq[2] && "--setup"[2] != keyEq[2];
    }
    if keyEq == "--out=" {
      assert Lower(a[..5]) == Lower("--out");
      ThirdCharRulesOut(a, "--browsers");
      ThirdCharRulesOut(a, "--load-settings");
    } else if keyEq == "--browsers=" {
      assert Lower(a[..10]) == Lower("--browsers");
      ThirdCharRulesOut(a, "--out");
      ThirdCharRulesOut(a, "--load-settings");
    } else {
      assert Lower(a[..15]) == Lower("--load-settings");
      ThirdCharRulesOut(a, "--out");
      ThirdCharRulesOut(a, "--browsers");
    }
  }

  /** With an svg, a png and one key argument, the result is that key's step over the defaults. */
  lemma OneKeyAfterFiles(svg: string, png: string, a: string, env: Env)
    requires IsSvgArg(svg) && env.fileExists(svg)
    requires IsPngArg(png) && env.fileExists(png)
    requires !IsHelp(a) && !IsSetupKey(a) && !IsSvgArg(a) && !IsPngArg(a)
    ensures var stem := Stem(svg, env.plat.sep);
      ParseArguments([svg, png, a], env)
      == match ScanKey(a, env, stem, KeyScan(None, None, None))
         case Err(f) => Err(f)
         case Ok(k) => Ok(ArgumentsData(Some(svg), Some(png), Some(k.out.GetOr(DefaultOutDir(env.plat, stem))),
                                        k.settings, false, Some(k.browsers.GetOr(DefaultNames()))))
  {
    LooksLikeFileIsNotKey(svg);
    LooksLikeFileIsNotKey(png);
    assert !IsPngArg(svg) && !IsHelp(svg) && !IsSetupKey(svg);
    assert !IsSvgArg(png) && !IsHelp(png) && !IsSetupKey(png);
    var init := FileScan(None, None, false);
    var afterSvg := FileScan(Some(svg), None, false);
    var s := FileScan(Some(svg), Some(png), false);
    assert ScanFile(svg, env, init) == Ok(afterSvg);
    assert ScanFile(png, env, afterSvg) == Ok(s);
    assert ScanFile(a, env, s) == Ok(s);
    assert ScanFiles([a], env, s) == Ok(s) by {
      assert [a][1..] == [];
      assert ScanFiles([a][1..], env, s) == Ok(s);
    }
    assert ScanFiles([png, a], env, afterSvg) == Ok(s) by {
      assert [png, a][1..] == [a];
    }
    assert ScanFiles([svg, png, a], env, init) == Ok(s) by {
      assert [svg, png, a][1..] == [png, a];
    }
    var stem := Stem(svg, env.plat.sep);
    var none := KeyScan(None, None, None);
    assert ScanKey(svg, env, stem, none) == Ok(none);
    assert ScanKey(png, env, stem, none) == Ok(none);
    assert ScanKeys([a], env, stem, none) == ScanKey(a, env, stem, none) by {
      assert [a][1..] == [];
      match ScanKey(a, env, stem, none)
      case Err(_) =>
      case Ok(k) => assert ScanKeys([a][1..], env, stem, k) == Ok(k);
    }
    assert ScanKeys([png, a], env, stem, none) == ScanKey(a, env, stem, none) by {
      assert [png, a][1..] == [a];
    }
    assert ScanKeys([svg, png, a], env, stem, none) == ScanKey(a, env, stem, none) by {
      assert [svg, png, a][1..] == [png, a];
    }
  }

  /**
   * `--out=<dir>`: the screenshots go to `<dir><stem>_screenshots` when `dir`
   * ends in '/' or '\', and to `<dir><sep><stem>_screenshots` otherwise.
   */
  lemma OutKeySetsDirectory(svg: string, png: string, dir: string, env: Env)
    requires IsSvgArg(svg) && env.fileExists(svg)
    requires IsPngArg(png) && env.fileExists(png)
    requires '=' !in dir && dir != ""
    requires !IsSvgArg("--out=" + dir) && !IsPngArg("--out=" + dir)
    ensures ParseArguments([svg, png, "--out=" + dir], env).Ok?
    ensures var stem := Stem(svg, env.plat.sep);
      ParseArguments([svg, png, "--out=" + dir], env).value.outputDirectory
      == Some(if EndsWith(dir, "/") || EndsWith(dir, "\\") then dir + stem + "_screenshots"
              else dir + [env.plat.sep] + stem + "_screenshots")
  {
    var a := "--out=" + dir;
    var stem := Stem(svg, env.plat.sep);
    KeyArgument("--out=", dir);
    OutKeyStep(a, dir, stem, env);
    OneKeyAfterFiles(svg, png, a, env);
    assert ParseArguments([svg, png, a], env).value.outputDirectory == Some(OutDir(dir, stem, env.plat.sep));
  }

  lemma OutKeyStep(a: string, dir: string, stem: string, env: Env)
    requires !IsSvgArg(a) && !IsPngArg(a) && StartsWith(a, "--") && HasKeyValue(a) && KeyValue(a) == dir
    requires StartsWithIgnoreCase(a, "--out")
    requires !StartsWithIgnoreCase(a, "--browsers") && !StartsWithIgnoreCase(a, "--load-settings")
    ensures ScanKey(a, env, stem, KeyScan(None, None, None))
            == Ok(KeyScan(None, None, Some(OutDir(dir, stem, env.plat.sep))))
  {
  }

  /**
   * `--browsers=<list>`: the list is the value upper-cased and split on ',';
   * the first name that is not a constant is reported.
   */
  lemma BrowsersKeySetsList(svg: string, png: string, list: string, env: Env)
    requires IsSvgArg(svg) && env.fileExists(svg)
    requires IsPngArg(png) && env.fileExists(png)
    requires '=' !in list && list != ""
    requires !IsSvgArg("--browsers=" + list) && !IsPngArg("--browsers=" + list)
    ensures var names := Split(Upper(list), ',');
      var r := ParseArguments([svg, png, "--browsers=" + list], env);
      && (r.Ok? <==> forall i :: 0 <= i < |names| ==> ValueOf(names[i]).Some?)
      && (r.Ok? ==> r.value.browsers == Some(names))
      && (r.Err? ==> r.failure == IllegalArgument(InvalidBrowserMessage(FirstInvalid(names).value)))
  {
    var a := "--browsers=" + list;
    var stem := Stem(svg, env.plat.sep);
    KeyArgument("--browsers=", list);
    BrowsersKeyStep(a, list, stem, env);
    OneKeyAfterFiles(svg, png, a, env);
  }

  lemma BrowsersKeyStep(a: string, list: string, stem: string, env: Env)
    requires !IsSvgArg(a) && !IsPngArg(a) && StartsWith(a, "--") && HasKeyValue(a) && KeyValue(a) == list
    requires StartsWithIgnoreCase(a, "--browsers")
    requires !StartsWithIgnoreCase(a, "--out") && !StartsWithIgnoreCase(a, "--load-settings")
    ensures var names := Split(Upper(list), ',');
      ScanKey(a, env, stem, KeyScan(None, None, None))
      == if FirstInvalid(names).None? then Ok(KeyScan(None, Some(names), None))
         else Err(IllegalArgument(InvalidBrowserMessage(FirstInvalid(names).value)))
  {
    var none := KeyScan(None, None, None);
    assert ScanKey(a, env, stem, none) == BrowsersKey(a, none) by {
      match BrowsersKey(a, none)
      case Err(_) =>
      case Ok(k) => assert OutKey(a, stem, env.plat.sep, k) == Ok(k);
    }
  }

  /** `--load-settings=<file>` keeps the file only when it exists and its extension is "properties". */
  lemma LoadSettingsKeepsFile(svg: string, png: string, file: string, env: Env)
    requires IsSvgArg(svg) && env.fileExists(svg)
    requires IsPngArg(png) && env.fileExists(png)
    requires '=' !in file && file != ""
    requires !IsSvgArg("--load-settings=" + file) && !IsPngArg("--load-settings=" + file)
    ensures var r := ParseArguments([svg, png, "--load-settings=" + file], env);
      && (!env.fileExists(file) ==> r == Err(IllegalArgument(PropertiesNotFoundMessage(env.plat, file))))
      && (env.fileExists(file) && Extension(file, env.plat.sep) != "properties" ==>
            r == Err(IllegalArgument(InvalidPropertiesMessage(env.plat, file))))
      && (env.fileExists(file) && Extension(file, env.plat.sep) == "properties" ==>
            r.Ok? && r.value.settingsFile == Some(file))
  {
    KeyArgument("--load-settings=", file);
    LoadSettingsKeyStep("--load-settings=" + file, file, Stem(svg, env.plat.sep), env);
    OneKeyAfterFiles(svg, png, "--load-settings=" + file, env);
  }

  lemma LoadSettingsKeyStep(a: string, file: string, stem: string, env: Env)
    requires !IsSvgArg(a) && !IsPngArg(a) && StartsWith(a, "--") && HasKeyValue(a) && KeyValue(a) == file
    requires StartsWithIgnoreCase(a, "--load-settings")
    requires !StartsWithIgnoreCase(a, "--out") && !StartsWithIgnoreCase(a, "--browsers")
    ensures ScanKey(a, env, stem, KeyScan(None, None, None))
      == if !env.fileExists(file) then Err(IllegalArgument(PropertiesNotFoundMessage(env.plat, file)))
         else if Extension(file, env.plat.sep) != "properties" then Err(IllegalArgument(InvalidPropertiesMessage(env.plat, file)))
         else Ok(KeyScan(Some(file), None, None))
  {
    var none := KeyScan(None, None, None);
    assert ScanKey(a, env, stem, none) == LoadSettingsKey(a, env, none) by {
      match LoadSettingsKey(a, env, none)
      case Err(_) =>
      case Ok(k) =>
        assert BrowsersKey(a, k) == Ok(k);
        assert OutKey(a, stem, env.plat.sep, k) == Ok(k);
    }
  }

  /** Any other argument that does not start with "--" is rejected with the usage text appended. */
  lemma StrayArgumentRejected(svg: string, png: string, a: string, env: Env)
    requires IsSvgArg(svg) && env.fileExists(svg)
    requires IsPngArg(png) && env.fileExists(png)
    requires !IsSvgArg(a) && !IsPngArg(a) && !StartsWith(a, "--")
    ensures ParseArguments([svg, png, a], env) == Err(IllegalArgument(InvalidInputMessage(a)))
  {
    FlagsStartWithDashes(a);
    OneKeyAfterFiles(svg, png, a, env);
  }
}
