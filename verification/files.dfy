/**
 * The parts of `java.io.File` the program uses, over paths as strings: the
 * last path component, the extension, the absolute path and a child path.
 * Path normalisation (duplicate or trailing separators) and Windows drive
 * letters are not modelled.
 */
module Files {
  import opened Text

  /** The operating-system families the program distinguishes. */
  datatype Os = Linux | Windows | Unsupported

  /** The JVM properties the program reads: `file.separator`, `user.dir` and the OS family. */
  datatype Platform = Platform(sep: char, userDir: string, os: Os)

  /** The separators `file.separator` takes on the platforms the program supports. */
  predicate ValidSeparator(sep: char) {
    sep == '/' || sep == '\\'
  }

  /** The platform together with the file system, seen only through `File.exists()`. */
  datatype Env = Env(plat: Platform, fileExists: string -> bool) {

    /** The same environment after a file has been written at `path`. */
    function WithFile(path: string): Env {
      Env(plat, (p: string) => p == path || fileExists(p))
    }
  }

  /** The part of `s` after its last `c`, or all of `s` when there is no `c`. */
  function AfterLast(s: string, c: char): (r: string)
    ensures c !in r
    ensures EndsWith(s, r)
    ensures |r| < |s| ==> s[|s| - |r| - 1] == c
    decreases |s|
  {
    if |s| == 0 then ""
    else if s[|s| - 1] == c then ""
    else
      var r := AfterLast(s[..|s| - 1], c);
      assert s[|s| - |r| - 1..] == s[..|s| - 1][|s| - 1 - |r|..] + [s[|s| - 1]];
      r + [s[|s| - 1]]
  }

  /** The piece after a final `c` is exactly what follows that `c`. */
  lemma {:induction false} AfterLastOfSuffix(a: string, c: char, b: string)
    requires c !in b
    ensures AfterLast(a + [c] + b, c) == b
    decreases |b|
  {
    var s := a + [c] + b;
    if |b| > 0 {
      assert s[..|s| - 1] == a + [c] + b[..|b| - 1];
      AfterLastOfSuffix(a, c, b[..|b| - 1]);
      assert b == b[..|b| - 1] + [b[|b| - 1]];
    } else {
      assert s[|s| - 1] == c;
    }
  }

  /** `File.name`: the last component of the path. */
  function FileName(path: string, sep: char): string {
    AfterLast(path, sep)
  }

  /** `File.extension`: what follows the last '.' of the file name, or "" without one. */
  function Extension(path: string, sep: char): string {
    var name := FileName(path, sep);
    if '.' in name then AfterLast(name, '.') else ""
  }

  predicate IsAbsolute(path: string, sep: char) {
    |path| > 0 && path[0] == sep
  }

  /** `File.absolutePath`: relative paths are resolved against `user.dir`. */
  function AbsolutePath(plat: Platform, path: string): (r: string)
    ensures EndsWith(r, path)
  {
    if IsAbsolute(path, plat.sep) then path
    else
      var r := plat.userDir + [plat.sep] + path;
      assert r[|r| - |path|..] == path;
      r
  }

  /** `File(parent, child).path` for a child that is a single name. */
  function Resolve(dir: string, name: string, sep: char): string {
    if |dir| > 0 && dir[|dir| - 1] == sep then dir + name else dir + [sep] + name
  }

  /** The file name of a resolved child is the child's name. */
  lemma ResolveFileName(dir: string, name: string, sep: char)
    requires sep !in name
    ensures FileName(Resolve(dir, name, sep), sep) == name
    ensures StartsWith(Resolve(dir, name, sep), dir)
  {
    if |dir| > 0 && dir[|dir| - 1] == sep {
      assert dir + name == dir[..|dir| - 1] + [sep] + name;
      AfterLastOfSuffix(dir[..|dir| - 1], sep, name);
    } else {
      AfterLastOfSuffix(dir, sep, name);
    }
    assert Resolve(dir, name, sep)[..|dir|] == dir;
  }

  /**
   * A path whose last four characters are '.', then three that are neither '.'
   * nor the separator, has exactly those three as its extension.
   */
  lemma ExtensionOfSuffix(path: string, sep: char)
    requires |path| >= 4 && path[|path| - 4] == '.'
    requires sep != '.'
    requires forall i :: |path| - 3 <= i < |path| ==> path[i] != '.' && path[i] != sep
    ensures Extension(path, sep) == path[|path| - 3..]
  {
    var ext := path[|path| - 3..];
    var front := path[..|path| - 4];
    assert path == front + ['.'] + ext;
    assert sep !in ['.'] + ext;
    assert path == front + ([ '.'] + ext);
    AfterLastSuffix(front, sep, ['.'] + ext);
    var name := FileName(path, sep);
    assert EndsWith(name, ['.'] + ext);
    assert name == name[..|name| - 4] + ['.'] + ext;
    assert '.' in name by { assert name[|name| - 4] == '.'; }
    AfterLastOfSuffix(name[..|name| - 4], '.', ext);
  }

  /** When the tail `b` of `a + b` has no `c`, the piece after the last `c` ends with `b`. */
  lemma AfterLastSuffix(a: string, c: char, b: string)
    requires c !in b
    ensures EndsWith(AfterLast(a + b, c), b)
  {
    var s := a + b;
    var r := AfterLast(s, c);
    forall j | |a| <= j < |s| ensures s[j] != c {
      assert s[j] == b[j - |a|];
    }
    assert |r| >= |b|;
    assert r == s[|s| - |r|..];
    assert r[|r| - |b|..] == s[|a|..];
  }
}
