/**
 * How the program interprets the ImageMagick commands it runs (`IMUtils` and
 * `ImageInfo`). The commands themselves are not modelled: each run is given
 * as a `ToolRun` saying whether it finished without an exception and what it
 * printed.
 */
module ImageUtils {
  import opened Outcomes
  import opened Text
  import opened Files
  import opened Settings

  /**
   * The outcome of one ImageMagick command: whether it finished without an
   * exception, its standard output and error lines, and the exception message
   * when it did not finish.
   */
  datatype ToolRun = ToolRun(succeeded: bool, stdout: seq<string>, stderr: seq<string>, message: string)

  /** Size, compression quality (as the text identify printed), format and file of an image. */
  datatype ImageInfo = ImageInfo(width: int, height: int, quality: string, format: string, file: string)

  const ImageInfoMessage: string := "Can't get image info."

  /** The message of reading element 0 of an empty output list. */
  const EmptyOutputMessage: string := "Index 0 out of bounds for length 0"

  const ImageMagickMissing: string :=
    ". ImageMagick v 6.x.x is not found! For download ImageMagick please visit https://legacy.imagemagick.org/script/download.php"

  /**
   * `getImageCommand`: the ImageMagick search path. A missing setting or
   * directory is reported with a download hint appended; an empty store is
   * passed on unchanged.
   */
  function ImageCommand(props: map<string, string>, env: Env): (r: Result<string>)
    ensures r.Ok? <==> GetImageMagick(props, env).Ok?
    ensures r.Ok? ==> r.value == AbsolutePath(env.plat, GetImageMagick(props, env).value)
    ensures r.Err? ==> r.failure.IllegalState? || r.failure.FileNotFound?
    ensures r.Err? && r.failure.FileNotFound? ==>
      r.failure.message == GetImageMagick(props, env).failure.message + ImageMagickMissing
    ensures r.Err? && r.failure.IllegalState? ==> r.failure == GetImageMagick(props, env).failure
  {
    match GetImageMagick(props, env)
    case Ok(dir) => Ok(AbsolutePath(env.plat, dir))
    case Err(FileNotFound(m)) => Err(FileNotFound(m + ImageMagickMissing))
    case Err(f) => Err(f)
  }

  /**
   * The `ImageInfo` constructor: fields 0 and 1 must be `Int`s and field 2 a
   * `Double`; fields 3 and 4 are the format and the file; any later fields are
   * ignored. Every failure is the same `IllegalStateException`.
   */
  function ParseImageInfo(fields: seq<string>): (r: Result<ImageInfo>)
    ensures r.Ok? <==>
      |fields| >= 5 && ParseInt(fields[0]).Some? && ParseInt(fields[1]).Some? && IsJavaDouble(fields[2])
    ensures r.Ok? ==>
      && Some(r.value.width) == ParseInt(fields[0])
      && Some(r.value.height) == ParseInt(fields[1])
      && r.value.quality == fields[2]
      && r.value.format == fields[3]
      && r.value.file == fields[4]
    ensures r.Err? ==> r.failure == IllegalState(ImageInfoMessage)
  {
    if |fields| == 0 then Err(IllegalState(ImageInfoMessage))
    else match ParseInt(fields[0])
      case None => Err(IllegalState(ImageInfoMessage))
      case Some(w) =>
        if |fields| < 2 then Err(IllegalState(ImageInfoMessage))
        else match ParseInt(fields[1])
          case None => Err(IllegalState(ImageInfoMessage))
          case Some(h) =>
            if |fields| < 3 || !IsJavaDouble(fields[2]) || |fields| < 5 then Err(IllegalState(ImageInfoMessage))
            else Ok(ImageInfo(w, h, fields[2], fields[3], fields[4]))
  }

  /** The line identify prints for the format `%w,%h,%Q,%m`. */
  function IdentifyLine(width: int, height: int, quality: string, format: string): string {
    Join([IntToString(width), IntToString(height), quality, format], ',')
  }

  function ReadError(abs: string, cause: string): Failure {
    IllegalState("Error while reading image file " + abs + ". " + cause)
  }

  /**
   * `getImageInfo`: a missing file is a `FileNotFoundException`, raised before
   * any command runs; every later failure becomes an `IllegalStateException`.
   * The fields are the first output line split on ',', followed by the
   * absolute path.
   */
  function GetImageInfo(path: string, env: Env, props: map<string, string>, run: ToolRun): (r: Result<ImageInfo>)
    ensures r.Err? ==> (r.failure.FileNotFound? <==> !env.fileExists(path))
    ensures r.Err? ==> r.failure.FileNotFound? || r.failure.IllegalState?
    ensures !env.fileExists(path) ==> r.Err?
    ensures r.Ok? ==> run.succeeded && |run.stdout| > 0 && ImageCommand(props, env).Ok?
    ensures r.Ok? ==> ParseImageInfo(Split(run.stdout[0], ',') + [AbsolutePath(env.plat, path)]) == r
  {
    var abs := AbsolutePath(env.plat, path);
    if !env.fileExists(path) then Err(FileNotFound("Image file " + abs + " not found!"))
    else match ImageCommand(props, env)
      case Err(f) => Err(ReadError(abs, f.message))
      case Ok(_) =>
        if !run.succeeded then Err(ReadError(abs, run.message))
        else if |run.stdout| == 0 then Err(ReadError(abs, EmptyOutputMessage))
        else match ParseImageInfo(Split(run.stdout[0], ',') + [abs])
          case Err(f) => Err(ReadError(abs, f.message))
          case Ok(info) => Ok(info)
  }

  /**
   * Reading back what identify printed: for an existing file whose first
   * output line is the `%w,%h,%Q,%m` line of an image, `getImageInfo` returns
   * exactly that size, quality and format, with the absolute path as its file.
   */
  lemma GetImageInfoRoundTrip(path: string, env: Env, props: map<string, string>, run: ToolRun,
                              width: int, height: int, quality: string, format: string)
    requires env.fileExists(path) && ImageCommand(props, env).Ok?
    requires run.succeeded && |run.stdout| > 0
    requires InIntRange(width) && InIntRange(height) && IsJavaDouble(quality)
    requires ',' !in quality && ',' !in format
    requires run.stdout[0] == IdentifyLine(width, height, quality, format)
    ensures GetImageInfo(path, env, props, run)
            == Ok(ImageInfo(width, height, quality, format, AbsolutePath(env.plat, path)))
  {
    var parts := [IntToString(width), IntToString(height), quality, format];
    IntToStringChars(width);
    IntToStringChars(height);
    assert ',' !in parts[0] by {
      forall i | 0 <= i < |parts[0]| ensures parts[0][i] != ',' { }
    }
    assert ',' !in parts[1] by {
      forall i | 0 <= i < |parts[1]| ensures parts[1][i] != ',' { }
    }
    SplitJoin(parts, ',');
    ParseIntToString(width);
    ParseIntToString(height);
  }

  /** A file that exists but whose identify output is not numeric is reported as unreadable. */
  lemma NonNumericOutputIsIllegalState(path: string, env: Env, props: map<string, string>, run: ToolRun)
    requires env.fileExists(path) && run.succeeded && |run.stdout| > 0
    requires ParseInt(Split(run.stdout[0], ',')[0]).None?
    ensures GetImageInfo(path, env, props, run).Err?
    ensures GetImageInfo(path, env, props, run).failure.IllegalState?
  {
    var fields := Split(run.stdout[0], ',') + [AbsolutePath(env.plat, path)];
    assert fields[0] == Split(run.stdout[0], ',')[0];
  }

  function InputNotFound(env: Env, input: string): Failure {
    FileNotFound("Input file " + AbsolutePath(env.plat, input) + " not found!")
  }

  /**
   * The convention shared by resize, crop and trim: a missing input is a
   * `FileNotFoundException`; otherwise the answer is whether the `convert`
   * command, found through the settings, ran without an exception.
   */
  function ConvertOutcome(input: string, env: Env, props: map<string, string>, commandRan: bool): (r: Result<bool>)
    ensures r.Err? <==> !env.fileExists(input)
    ensures r.Err? ==> r.failure == InputNotFound(env, input)
    ensures r.Ok? ==> (r.value <==> ImageCommand(props, env).Ok? && commandRan)
  {
    if !env.fileExists(input) then Err(InputNotFound(env, input))
    else Ok(ImageCommand(props, env).Ok? && commandRan)
  }

  /** `resizeImage(input, output, width, height)`. */
  function ResizeImage(input: string, output: string, width: int, height: int,
                       env: Env, props: map<string, string>, commandRan: bool): (r: Result<bool>)
    ensures r.Err? <==> !env.fileExists(input)
    ensures r.Err? ==> r.failure.FileNotFound?
    ensures r == Ok(true) <==> env.fileExists(input) && ImageCommand(props, env).Ok? && commandRan
  {
    ConvertOutcome(input, env, props, commandRan)
  }

  /** `cropImage(input, output, dimension, x, y)`. */
  function CropImage(input: string, output: string, width: int, height: int, x: int, y: int,
                     env: Env, props: map<string, string>, commandRan: bool): (r: Result<bool>)
    ensures r.Err? <==> !env.fileExists(input)
    ensures r.Err? ==> r.failure.FileNotFound?
    ensures r == Ok(true) <==> env.fileExists(input) && ImageCommand(props, env).Ok? && commandRan
  {
    ConvertOutcome(input, env, props, commandRan)
  }

  /** `trimImage(input, output)`. */
  function TrimImage(input: string, output: string,
                     env: Env, props: map<string, string>, commandRan: bool): (r: Result<bool>)
    ensures r.Err? <==> !env.fileExists(input)
    ensures r.Err? ==> r.failure.FileNotFound?
    ensures r == Ok(true) <==> env.fileExists(input) && ImageCommand(props, env).Ok? && commandRan
  {
    ConvertOutcome(input, env, props, commandRan)
  }

  /**
   * The count `compareImage` reports once the command has run: 0 when it
   * finished normally (the images are equal), otherwise the first error line
   * read as an `Int`, or -1 when there is no such line or it is not an `Int`.
   */
  function DifferingPixels(run: ToolRun): int {
    if run.succeeded then 0
    else if |run.stderr| == 0 then -1
    else match ParseInt(run.stderr[0])
      case Some(n) => n
      case None => -1
  }

  /**
   * `compareImage(input1, input2, output)`: both inputs are checked, first then
   * second, before anything runs; then the command is looked up and the fuzz
   * factor read, and their failures propagate; then the run is interpreted.
   */
  function CompareImage(input1: string, input2: string, output: string,
                        env: Env, props: map<string, string>, run: ToolRun): (r: Result<int>)
    ensures !env.fileExists(input1) ==> r == Err(InputNotFound(env, input1))
    ensures env.fileExists(input1) && !env.fileExists(input2) ==> r == Err(InputNotFound(env, input2))
    ensures r.Ok? <==>
      env.fileExists(input1) && env.fileExists(input2) && ImageCommand(props, env).Ok? && GetImFuzz(props).Ok?
    ensures r.Ok? ==> r.value == DifferingPixels(run)
    ensures r.Err? ==> r.failure.FileNotFound? || r.failure.IllegalState?
  {
    if !env.fileExists(input1) then Err(InputNotFound(env, input1))
    else if !env.fileExists(input2) then Err(InputNotFound(env, input2))
    else match ImageCommand(props, env)
      case Err(f) => Err(f)
      case Ok(_) =>
        match GetImFuzz(props)
        case Err(f) => Err(f)
        case Ok(_) => Ok(DifferingPixels(run))
  }

  /** A count ImageMagick prints on the error stream is reported as that count. */
  lemma ReportedCountRoundTrip(run: ToolRun, n: int)
    requires !run.succeeded && |run.stderr| > 0 && run.stderr[0] == IntToString(n)
    requires InIntRange(n)
    ensures DifferingPixels(run) == n
  {
    ParseIntToString(n);
  }
}
