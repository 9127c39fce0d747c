# vqct: a Dafny model of the command-line core

vqct (visual quality control tool) renders an SVG file in several browsers.
It compares each screenshot with a baseline PNG using ImageMagick `compare`
and prints one result line per browser. This project models the parts of that
program which decide what happens. The model contains no I/O: the file system,
ImageMagick runs, browser renders and the screen size are given as parameters.

- `parseArguments` and `ArgumentsData` (module `Arguments`). The first pass
  finds `--help`, `--setup` and the svg and png files. The second pass reads
  `--load-settings=`, `--browsers=` and `--out=`. Afterwards the defaults are
  filled in.
- `main`'s output (module `Program`). It prints "Starting work...". An
  `IllegalArgumentException` prints its message and a short stop line. Any
  other exception prints only the stop line that points to the log.
- `VQCT` (module `Orchestrator`) covers four things:
  - the initialiser's identify checks;
  - `comparing`, with its inclusive pixel threshold;
  - the per-browser loop of `launch`;
  - the closing "Output directory" line.
- `prepareBasePNG` (module `Baseline`) covers the per-axis percentage with a
  100-pixel margin, the choice of the stricter axis, and the resize request
  with its fallback to the original baseline.
- `outputFileConstructor` and the screenshot and diff file names (module
  `Naming`). The `Browsers` enum is modelled in module `Browsers`.
- The settings getters `getImFuzz`, `getImErrPixelCountThreshold` and
  `getImageMagick` (module `Settings`). The settings are a key/value map.
- `IMUtils` and `ImageInfo` (module `ImageUtils`). This covers parsing
  identify's `%w,%h,%Q,%m` line and `getImageInfo`'s error mapping. It also
  covers resize, crop and trim, and how `compareImage` reads the count of
  differing pixels.
- Support modules:
  - `Outcomes`: a JVM exception becomes `Failure`, which keeps the exception
    class and its message.
  - `Text`: the standard-library string operations the program uses, among
    them Kotlin's `split`, `Integer.parseInt` and the syntax `Double.parseDouble`
    accepts.
  - `Files`: `java.io.File` paths as strings.

Exceptions become `Result` values. A `Failure` is an `IllegalArgument`,
`IllegalState` or `FileNotFound` value carrying the message. Case conversion
covers ASCII letters only. `roundToInt` of the single-precision quotients is
modelled as exact rational rounding, with halves rounded up.

## Model

| member | source | states |
|---|---|---|
| Arguments.ScanFile | src/main/kotlin/ru/resprojects/Main.kt:90-111 | One argument of the first pass is accepted iff it is not `--help` and, when it ends in ".svg" or ".png" in any case, the file exists. A rejection is the usage text for `--help` and otherwise the missing-file message. Accepting records the svg, the png and the setup flag. |
| Arguments.ScanFiles | src/main/kotlin/ru/resprojects/Main.kt:90-111 | The first pass succeeds iff every argument is accepted. Every kept file has the right suffix and exists. `isSetup` is set iff some argument is `--setup`. The svg (png) is absent iff no argument ends in ".svg" (".png"). Otherwise the kept svg (png) is the last such argument. |
| Arguments.LastIndex | src/main/kotlin/ru/resprojects/Main.kt:90-176 | The reference for "a later argument overrides an earlier one": the position of the last argument of a kind, after which none of that kind follows, or -1 when there is none. |
| Arguments.ScanFilesStopsAtFirst | src/main/kotlin/ru/resprojects/Main.kt:90-111 | The first pass reports the failure of the first argument it rejects, whatever comes after it. |
| Arguments.ParseStopsAtFirstRejected | src/main/kotlin/ru/resprojects/Main.kt:90-111 | `parseArguments` fails with exactly that first rejection. |
| Arguments.HelpGivesUsage | src/main/kotlin/ru/resprojects/Main.kt:91-93 | `--help` in any letter case, after accepted arguments, throws the usage text. |
| Arguments.MissingFileReported | src/main/kotlin/ru/resprojects/Main.kt:97-110 | A missing svg or png is reported as "ERROR: File <absolute path> is not found!". |
| Arguments.LooksLikeFileIsNotKey | src/main/kotlin/ru/resprojects/Main.kt:91-104 | An argument ending in ".svg" or ".png" is neither `--help` nor `--setup`, and never both kinds of file. |
| Arguments.SetupAloneGivesSetupOnly | src/main/kotlin/ru/resprojects/Main.kt:116-117 | `--setup` with no file arguments returns data with only `isSetup` set. |
| Arguments.MissingInputNotSpecified | src/main/kotlin/ru/resprojects/Main.kt:112-121 | A missing svg or png without `--setup`, or exactly one of them with `--setup`, gives "ERROR: Not specified SVG file or Base PNG file!". |
| Arguments.FirstInvalid | src/main/kotlin/ru/resprojects/Main.kt:146-153 | The first requested browser name that is not an enum constant. `None` means every name is valid. |
| Arguments.LoadSettingsKey | src/main/kotlin/ru/resprojects/Main.kt:126-142 | `--load-settings=` is accepted iff it has exactly one non-empty value naming an existing file with extension "properties". The file is then kept. Every other case is an `IllegalArgumentException`. |
| Arguments.BrowsersKey | src/main/kotlin/ru/resprojects/Main.kt:143-158 | Without a single non-empty value the key is rejected with its hint. Otherwise it is accepted iff every upper-cased, comma-separated name is a constant, and the list is then kept. |
| Arguments.OutKey | src/main/kotlin/ru/resprojects/Main.kt:159-170 | `--out=` is accepted iff it has a single non-empty value. The directory is then `<dir><stem>_screenshots`, with a separator in between unless `dir` already ends in one. |
| Arguments.ScanKey | src/main/kotlin/ru/resprojects/Main.kt:124-175 | File arguments pass unchanged. An argument that is not a file and does not start with "--" is "Invalid input data" followed by the usage text. A "--" argument is handled by exactly the one key step whose key it starts with, ignoring case: `--load-settings`, `--browsers` or `--out`. Any other "--" argument, `--setup` among them, changes nothing. On success a key sets only its own setting, to its value, and leaves the other two unchanged. Validated settings stay validated. |
| Arguments.KnownKeysExclusive | src/main/kotlin/ru/resprojects/Main.kt:126-159 | No argument starts with two of `--load-settings`, `--browsers` and `--out`, so at most one of the three branches acts on it. |
| Arguments.ScanKeyFailureIgnoresAcc | src/main/kotlin/ru/resprojects/Main.kt:124-175 | Whether a key argument is rejected, and with which message, does not depend on the keys before it. |
| Arguments.ScanKeys | src/main/kotlin/ru/resprojects/Main.kt:123-176 | The second pass fails only with `IllegalArgumentException`. On success every argument is a file or starts with "--", and every kept setting was validated. The settings file, the browser list and the output directory each come from the last key argument of their kind, and stay as they were when there is none. |
| Arguments.ScanKeysStopsAtFirst | src/main/kotlin/ru/resprojects/Main.kt:123-176 | The second pass fails iff some key argument is rejected, and then with the first rejection, whatever keys came before it. |
| Arguments.ParseStopsAtFirstRejectedKey | src/main/kotlin/ru/resprojects/Main.kt:84-176 | When every argument passes the first pass and both files are named, `parseArguments` fails iff some key argument is rejected, and then with the first rejection. |
| Arguments.OutKeyNeedsValue | src/main/kotlin/ru/resprojects/Main.kt:159-169 | An `--out` key without exactly one non-empty value is rejected with "ERROR: Invalid key value --out.", wherever it stands. |
| Arguments.OutKeyWithoutValueRejected | src/main/kotlin/ru/resprojects/Main.kt:159-169 | "--out" and "--out=" in front of an existing svg and png both give "ERROR: Invalid key value --out. ...". |
| Arguments.ParseArguments | src/main/kotlin/ru/resprojects/Main.kt:84-188 | No arguments gives the usage text. Every failure is an `IllegalArgumentException`. A success is either `--setup` alone or both existing files with an output directory and a list of valid browser names. Every argument passed the first pass. `isSetup` is set iff some argument is `--setup`. Apart from `--setup` alone, in any order of arguments: the svg and png are the last arguments ending in ".svg" and ".png". The settings file, the browser list and the output directory come from the last key of their kind. Without such a key they take the defaults: no settings file, CHROME, FIREFOX, OPERA, IE, and `<user.dir><sep><stem>_screenshots`. |
| Arguments.TwoFilesGetDefaults | src/main/kotlin/ru/resprojects/Main.kt:177-186 | Just an svg and a png give `<user.dir><sep><svg name with '.'→'_'>_screenshots` and the list CHROME, FIREFOX, OPERA, IE. |
| Arguments.OneKeyAfterFiles | src/main/kotlin/ru/resprojects/Main.kt:123-187 | With two files and one key, the result is that key's effect applied over the defaults. |
| Arguments.OutKeySetsDirectory | src/main/kotlin/ru/resprojects/Main.kt:159-165 | `--out=<dir>` sets the output directory to `dir` + stem + "_screenshots", with a separator in between unless `dir` already ends in '/' or '\'. |
| Arguments.BrowsersKeySetsList | src/main/kotlin/ru/resprojects/Main.kt:143-153 | `--browsers=<list>` succeeds iff every upper-cased piece is a constant. The list is then those pieces in order. Otherwise the first invalid piece is reported. |
| Arguments.LoadSettingsKeepsFile | src/main/kotlin/ru/resprojects/Main.kt:126-137 | A missing file gives "Properties file ... is not found!". A wrong extension gives "Invalid properties file". Otherwise the settings file is set. |
| Arguments.StrayArgumentRejected | src/main/kotlin/ru/resprojects/Main.kt:171-174 | An argument that is neither a file nor a "--" key is rejected with its own text and the usage message. |
| Browsers.ValueOf | src/main/kotlin/ru/resprojects/vqct/Utils.kt:18-20 | `Browsers.valueOf` finds the constant with exactly that name, and fails for every string that names none. |
| Browsers.ValueOfName | src/main/kotlin/ru/resprojects/vqct/Utils.kt:18-20 | Looking a constant up by its own name finds it. |
| Browsers.DefaultNamesAreValid | src/main/kotlin/ru/resprojects/Main.kt:180-186 | The default list is the constants' names in declaration order, and each one is valid. |
| Files.ResolveFileName | src/main/kotlin/ru/resprojects/vqct/Utils.kt:50 | `File(dir, name)` lies in `dir` and its name is `name`. |
| Naming.StemClean | src/main/kotlin/ru/resprojects/vqct/Utils.kt:50 | The stem of an output name contains neither '.' nor the separator. |
| Naming.OutputFileParts | src/main/kotlin/ru/resprojects/vqct/Utils.kt:48-51 | The output file lies in the output directory. It is named stem + postfix + "." + extension, and its extension reads back as `extension`. |
| Naming.OutputFilesDistinct | src/main/kotlin/ru/resprojects/vqct/Utils.kt:410-479 | Two browsers never share a screenshot file or a diff image. |
| Text.Split | src/main/kotlin/ru/resprojects/Main.kt:127-128 | `split` keeps empty pieces, joining the pieces gives back the string, and no piece contains the delimiter. |
| Text.SplitJoin | src/main/kotlin/ru/resprojects/vqct/ImageUtils.kt:64-71 | Splitting delimiter-free parts joined by the delimiter gives back those parts. |
| Text.SplitCount | src/main/kotlin/ru/resprojects/Main.kt:160 | There is one more piece than there are delimiters. |
| Text.ParseIntToString | src/main/kotlin/ru/resprojects/vqct/ImageUtils.kt:228 | `toInt()` reads a printed 32-bit `Int` back as itself. |
| Text.ParseInt | src/main/kotlin/ru/resprojects/vqct/ImageUtils.kt:190 | `toInt()` accepts a string iff it is an optional '+' or '-' followed by at least one decimal digit, leading zeros allowed, whose value fits in 32 bits. It returns that value, negated after a '-'. |
| Text.DigitsValueHead | src/main/kotlin/ru/resprojects/vqct/ImageUtils.kt:190 | Read from the left, a numeral's value is its first digit times its place value plus the value of the rest. This links the right-to-left digit reading to the left-to-right reference. |
| Text.ParseIntAcceptsSignAndZeros | src/main/kotlin/ru/resprojects/vqct/Utils.kt:185-198 | A threshold written "+500" or "0500" reads as 500. "+" and "5 00" are rejected. |
| Settings.GetImFuzz | src/main/kotlin/ru/resprojects/vqct/Utils.kt:166-179 | The fuzz is read iff the store is not empty and the value is present, non-empty and a `Double`. Every failure is `IllegalStateException`. |
| Settings.GetImErrPixelCountThreshold | src/main/kotlin/ru/resprojects/vqct/Utils.kt:185-198 | The threshold is read iff the store is not empty and the value is present, non-empty and an `Int`. The result is that `Int`. |
| Settings.GetImageMagick | src/main/kotlin/ru/resprojects/vqct/Utils.kt:146-160 | An empty store is `IllegalStateException`. A missing value or directory is `FileNotFoundException`. Otherwise the directory is returned. |
| Settings.ThresholdRoundTrip | src/main/kotlin/ru/resprojects/vqct/Utils.kt:185-198 | A stored `Int` text reads back as that `Int`. |
| Settings.DefaultsReadBack | src/main/kotlin/ru/resprojects/vqct/Utils.kt:372-374 | The defaults a reset writes read back as fuzz "15" and threshold 500. |
| Settings.FuzzAcceptsTypeSuffix | src/main/kotlin/ru/resprojects/vqct/Utils.kt:170-175 | "12d" is accepted as a fuzz but rejected as a threshold. |
| ImageUtils.ImageCommand | src/main/kotlin/ru/resprojects/vqct/ImageUtils.kt:37-51 | The command is found iff `getImageMagick` succeeds. The found command is the directory's absolute path. An empty store's `IllegalState` is passed on unchanged. A `FileNotFound` keeps its message with the ImageMagick download hint appended. |
| ImageUtils.ParseImageInfo | src/main/kotlin/ru/resprojects/vqct/ImageUtils.kt:207-235 | Parsing succeeds iff there are at least five fields, the first two are `Int`s and the third is a `Double`. The fields are then read in that order. Any failure is "Can't get image info.". |
| ImageUtils.GetImageInfo | src/main/kotlin/ru/resprojects/vqct/ImageUtils.kt:58-77 | A missing file, and only a missing file, is `FileNotFound`. Every other failure is `IllegalState`. A success needs a completed run with output, and parses its first line plus the absolute path. |
| ImageUtils.GetImageInfoRoundTrip | src/main/kotlin/ru/resprojects/vqct/ImageUtils.kt:58-77 | The `%w,%h,%Q,%m` line of an image reads back as exactly that size, quality and format, with the absolute path as its file. |
| ImageUtils.NonNumericOutputIsIllegalState | src/main/kotlin/ru/resprojects/vqct/ImageUtils.kt:58-77 | Non-numeric identify output for an existing file is `IllegalState`. |
| ImageUtils.ConvertOutcome | src/main/kotlin/ru/resprojects/vqct/ImageUtils.kt:140-156 | A missing input throws "Input file ... not found!". Otherwise the answer is whether the command was found and ran. |
| ImageUtils.ResizeImage | src/main/kotlin/ru/resprojects/vqct/ImageUtils.kt:140-156 | Throws `FileNotFound` iff the input is missing. Returns true iff the input exists, the command is found and it ran. |
| ImageUtils.CropImage | src/main/kotlin/ru/resprojects/vqct/ImageUtils.kt:88-105 | Throws `FileNotFound` iff the input is missing. Returns true iff the input exists, the command is found and it ran. |
| ImageUtils.TrimImage | src/main/kotlin/ru/resprojects/vqct/ImageUtils.kt:113-130 | Throws `FileNotFound` iff the input is missing. Returns true iff the input exists, the command is found and it ran. |
| ImageUtils.CompareImage | src/main/kotlin/ru/resprojects/vqct/ImageUtils.kt:165-200 | The first input is checked first, then the second. The count is returned iff both exist, the command is found and the fuzz is readable. The count is 0 for a clean run, otherwise the first error line as an `Int`, or -1. |
| ImageUtils.ReportedCountRoundTrip | src/main/kotlin/ru/resprojects/vqct/ImageUtils.kt:187-196 | A count printed on the error stream is returned as that count. |
| Baseline.RoundDiv | src/main/kotlin/ru/resprojects/vqct/Utils.kt:494 | `roundToInt` of n/d lies within half a unit of the quotient, with halves rounded up. |
| Baseline.RoundDivUnique | src/main/kotlin/ru/resprojects/vqct/Utils.kt:494 | Exactly one integer meets those bounds. |
| Baseline.AxisPercentage | src/main/kotlin/ru/resprojects/vqct/Utils.kt:493-502 | An axis that fits is 100%. A larger axis gets (screen − 100)·100/size rounded, which is at most 100. |
| Baseline.OversizeAxisShrinks | src/main/kotlin/ru/resprojects/vqct/Utils.kt:493-497 | On a screen of up to 20000 pixels, an oversize axis is scaled below 100%. |
| Baseline.OversizeAxisMayRoundTo100 | src/main/kotlin/ru/resprojects/vqct/Utils.kt:493-497 | On a 30000-pixel screen, a 30001-pixel axis rounds to 100% and is left as it is. |
| Baseline.ChoosePercentage | src/main/kotlin/ru/resprojects/vqct/Utils.kt:503-508 | The chosen percentage is the smaller of the two. |
| Baseline.ScalePercentage | src/main/kotlin/ru/resprojects/vqct/Utils.kt:493-508 | The stricter axis governs. The scale never exceeds 100, and it is 100 when the image fits. |
| Baseline.ScaledNeverEnlarges | src/main/kotlin/ru/resprojects/vqct/Utils.kt:520-521 | Scaling by 0..100% gives a size between 0 and the original. |
| Baseline.PrepareBasePng | src/main/kotlin/ru/resprojects/vqct/Utils.kt:491-535 | Fails exactly as `getImageInfo` of the baseline fails. Without a resize the baseline stays. A resize yields `<stem>-resize.png` in the output directory. A resize command that does not run leaves the baseline. |
| Baseline.PrepareBasePngRequest | src/main/kotlin/ru/resprojects/vqct/Utils.kt:510-529 | A resize is requested iff the scale is not 100%, with both sides scaled by it. It takes effect iff the command is found and runs. A fitting image is used unchanged. |
| Baseline.WideBaselineExample | src/main/kotlin/ru/resprojects/vqct/Utils.kt:493-521 | A 2000x1000 baseline on 1920x1080 is scaled by 91% to 1820x910. |
| Orchestrator.ParsedIsLaunchReady | src/main/kotlin/ru/resprojects/Main.kt:112-122 | Every parsed result either stops at once or has every field `VQCT` dereferences. |
| Orchestrator.CheckInputs | src/main/kotlin/ru/resprojects/vqct/Utils.kt:389-399 | Unless setup stops the run, it succeeds iff identify reads the svg and then the png and reports extensions "svg" and "png" in any case. A missing svg is `FileNotFound`. |
| Orchestrator.Comparing | src/main/kotlin/ru/resprojects/vqct/Utils.kt:543-551 | Succeeds iff both files exist, the command is found, and fuzz and threshold are readable. Failures are `FileNotFound` or `IllegalState`. |
| Orchestrator.ComparingThreshold | src/main/kotlin/ru/resprojects/vqct/Utils.kt:550 | A pair is equal iff the count lies in 0..threshold. An unreadable count is never equal. |
| Orchestrator.ThresholdIsInclusive | src/main/kotlin/ru/resprojects/vqct/Utils.kt:550 | A count of exactly the threshold passes and one more fails. |
| Orchestrator.ErrorLineAsWrittenMislabels | src/main/kotlin/ru/resprojects/vqct/Utils.kt:423-426 | As written, CHROME and FIREFOX failure lines are identical to OPERA's. |
| Orchestrator.ErrorLinesIdentifyBrowser | src/main/kotlin/ru/resprojects/vqct/Utils.kt:423-426 | Corrected failure lines of different browsers differ, and none reads like a result line. |
| Orchestrator.BrowserOutcome | src/main/kotlin/ru/resprojects/vqct/Utils.kt:414-426 | A browser's comparison finishes only if the baseline is readable and the render succeeded, and a failed render always gives a failure. With a readable baseline and a successful render, the outcome is `comparing` of the baseline with this browser's own screenshot `<svg stem>-screen-by-<browser>.png`. A finished comparison is "equal" iff the reported count lies in 0..threshold. |
| Orchestrator.StepFor | src/main/kotlin/ru/resprojects/vqct/Utils.kt:411-477 | Names matching a constant case-insensitively are visited, except IE. IE is visited only on Windows, skipped on Linux, and on any other system it throws "Unsupported OS". |
| Orchestrator.RunBrowsers | src/main/kotlin/ru/resprojects/vqct/Utils.kt:410-479 | The loop can fail only with "Unsupported OS". |
| Orchestrator.RunBrowsersLines | src/main/kotlin/ru/resprojects/vqct/Utils.kt:410-479 | The loop fails iff some name aborts. Otherwise it prints one line per visited browser, in request order, each from that browser's own outcome. |
| Orchestrator.DefaultListVisits | src/main/kotlin/ru/resprojects/vqct/Utils.kt:460-461 | The default list visits all four browsers on Windows, all but IE on Linux, and aborts elsewhere. |
| Orchestrator.LowerCaseNamesVisit | src/main/kotlin/ru/resprojects/vqct/Utils.kt:411 | Names are matched ignoring case, and unknown names are skipped. |
| Orchestrator.Launch | src/main/kotlin/ru/resprojects/vqct/Utils.kt:401-482 | Setup without files prints nothing. It fails iff the baseline cannot be read or some name aborts. Otherwise it prints one line per visited browser, then "Output directory: <absolute path>". Line i is the line of the i-th visited browser, computed from that browser's outcome against the baseline `prepareBasePNG` chose. |
| Program.Report | src/main/kotlin/ru/resprojects/Main.kt:70-76 | An `IllegalArgumentException` prints its message and "Working stopped with ERROR!". Anything else prints the line pointing to the log. |
| Program.Main | src/main/kotlin/ru/resprojects/Main.kt:66-77 | Output starts with "Starting work...". A parse failure prints its message and the stop line. An accepted command line continues with `VQCT`'s output. |
| Program.LaterFailuresPointToLog | src/main/kotlin/ru/resprojects/Main.kt:73-76 | A failing input check or launch ends with the log line alone. Otherwise the launch's lines are printed. |
| Program.NoArgumentsPrintUsage | src/main/kotlin/ru/resprojects/Main.kt:85-88 | No arguments prints the start line, the usage text and the stop line. |
| Program.SetupAlonePrintsOnlyStart | src/main/kotlin/ru/resprojects/Main.kt:66-69 | In the model, `--setup` alone adds no line after the start line: `launch` stops at once. The setup wizard's own dialogue is outside the model. |
| Program.CompletedRunEndsWithOutputDirectory | src/main/kotlin/ru/resprojects/vqct/Utils.kt:480-481 | A completed run prints one line per visited browser and ends with the output directory. |

## Left out

- Rendering in browsers (`SvgRender.kt`) is not part of this model. Each browser's render is a parameter that either yields a screenshot or fails.
- The im4java command execution, and ImageMagick itself, are parameters: whether each command ran, and what it printed.
- Orchestrator.BrowserLine, Orchestrator.RunBrowsersLines, Orchestrator.Launch: a failed CHROME or FIREFOX step prints a line naming that browser. The program prints "OPERA" in both cases (`Utils.kt` lines 424-425 and 440-441). See "## Findings"; the as-written line is `Orchestrator.ErrorLineAsWritten`.
- Program.SetupAlonePrintsOnlyStart: with `--setup`, `ProgramSettings` runs `resetSettings` with the wizard (`Utils.kt` lines 65-70). The wizard prints "Start setup wizard. ..." and its prompts, reads the console, and can throw: at end of input, or with "Unsupported OS". It could therefore add lines, or end in `main`'s stop line, none of which this lemma covers.
- `ProgramSettings` loading, saving, `resetSettings` and the interactive setup wizard are not modelled. The settings are a map. `getBrowser` and `getWebDriver` are used only by the renderer, which is left out.
- `getOSName`'s "Unknown OS" branch is not modelled: `split` never returns an empty list. The OS family is a parameter.
- The screen resolution is a parameter, assumed positive (`ValidScreen`).
- Baseline.RoundDiv: single-precision float arithmetic is replaced by exact rationals, so results can differ when a float quotient sits within rounding error of a half.
- Logging, `println` to the console (kept as returned lines), `FileUtils.forceMkdir` and `FileUtils.copyFile` are not modelled. The copied screenshot is modelled as existing afterwards.
- The resize branch logs `getImageInfo` of the resized file, which could throw. That log call is left out.
- Java path normalisation (duplicate or trailing separators, `..`), Windows drive letters and locale-dependent case conversion are not modelled. Case conversion is ASCII-only.
- Text.ParseInt: non-ASCII digits, which `Integer.parseInt` also accepts, are not modelled.
- Settings.GetImFuzz: returns the accepted text rather than the `Double` value, and hexadecimal floating literals are not recognised.
- `ImageInfo.imageQuality` is kept as the text identify printed, not as a `Double`.

## Findings

| source | as written | input that shows it | evidently intended | confidence | as-written member | corrected member |
|---|---|---|---|---|---|---|
| src/main/kotlin/ru/resprojects/vqct/Utils.kt:423-426 | When the CHROME or FIREFOX try block throws, the failure line says "screenshot getting from OPERA" (also lines 440-441). | `--browsers=chrome` with a failing Chrome render prints "... getting from OPERA: ERROR! ...". | Each failure line names the browser that failed, as the IE branch does. | not executed | Orchestrator.ErrorLineAsWrittenMislabels | Orchestrator.ErrorLinesIdentifyBrowser |

The rest of the model (`Orchestrator.BrowserLine`) uses the corrected line.
