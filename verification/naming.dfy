/**
 * Names of the files a run writes into the output directory
 * (`outputFileConstructor` and its uses for screenshots and diff images).
 */
module Naming {
  import opened Text
  import opened Files
  import opened Browsers

  /** The input's file name with every '.' replaced by '_'. */
  function Stem(input: string, sep: char): string {
    ReplaceChar(FileName(input, sep), '.', '_')
  }

  /**
   * `outputFileConstructor(inputFile, outputDir, postfix, extension)`: the file
   * named stem + postfix + "." + extension inside `outputDir`.
   */
  function OutputFile(input: string, outputDir: string, postfix: string, extension: string, sep: char): string {
    Resolve(outputDir, Stem(input, sep) + postfix + "." + extension, sep)
  }

  /** The postfix of the screenshot taken in browser `b`. */
  function ScreenPostfix(b: Browser): string {
    "-screen-by-" + Lower(Name(b))
  }

  /** Where the screenshot from browser `b` is stored. */
  function ScreenshotFile(svg: string, outputDir: string, b: Browser, sep: char): string {
    OutputFile(svg, outputDir, ScreenPostfix(b), "png", sep)
  }

  /** Where the diff image of comparing against `screenshot` is written. */
  function ArtifactFile(screenshot: string, outputDir: string, sep: char): string {
    OutputFile(screenshot, outputDir, "-compare-result", "png", sep)
  }

  lemma StemClean(input: string, sep: char)
    requires ValidSeparator(sep)
    ensures '.' !in Stem(input, sep) && sep !in Stem(input, sep)
  {
    ReplaceCharRemoves(FileName(input, sep), '.', '_');
    var n := FileName(input, sep);
    var s := Stem(input, sep);
    forall i | 0 <= i < |s|
      ensures s[i] != sep
    {
      assert s[i] == '_' || s[i] == n[i];
    }
  }

  /**
   * The output file lies in `outputDir`, is named stem + postfix + "." +
   * extension, and its extension is `extension`.
   */
  lemma OutputFileParts(input: string, outputDir: string, postfix: string, extension: string, sep: char)
    requires ValidSeparator(sep)
    requires sep !in postfix && sep !in extension && '.' !in postfix && '.' !in extension
    ensures StartsWith(OutputFile(input, outputDir, postfix, extension, sep), outputDir)
    ensures FileName(OutputFile(input, outputDir, postfix, extension, sep), sep)
            == Stem(input, sep) + postfix + "." + extension
    ensures Extension(OutputFile(input, outputDir, postfix, extension, sep), sep) == extension
  {
    var stem := Stem(input, sep);
    var name := stem + postfix + "." + extension;
    StemClean(input, sep);
    assert sep !in name by {
      assert name == stem + postfix + ['.'] + extension;
    }
    ResolveFileName(outputDir, name, sep);
    assert '.' !in stem + postfix;
    assert name == (stem + postfix) + ['.'] + extension;
    AfterLastOfSuffix(stem + postfix, '.', extension);
    assert name[|stem + postfix|] == '.';
  }

  lemma OutputFileLength(input: string, outputDir: string, postfix: string, extension: string, sep: char)
    ensures |OutputFile(input, outputDir, postfix, extension, sep)|
            == |Resolve(outputDir, "", sep)| + |Stem(input, sep)| + |postfix| + 1 + |extension|
  {
  }

  lemma ScreenPostfixClean(b: Browser)
    ensures '.' !in ScreenPostfix(b) && '/' !in ScreenPostfix(b) && '\\' !in ScreenPostfix(b)
    ensures |ScreenPostfix(b)| == 11 + |Name(b)|
  {
    var p := ScreenPostfix(b);
    forall i | 0 <= i < |p|
      ensures p[i] != '.' && p[i] != '/' && p[i] != '\\'
    {
      if i >= 11 {
        assert p[i] == Lower(Name(b))[i - 11];
      }
    }
  }

  /**
   * Every browser writes its own screenshot and its own diff image: no two
   * browsers of one run share an output file.
   */
  lemma OutputFilesDistinct(svg: string, outputDir: string, sep: char, b1: Browser, b2: Browser)
    requires ValidSeparator(sep)
    requires b1 != b2
    ensures ScreenshotFile(svg, outputDir, b1, sep) != ScreenshotFile(svg, outputDir, b2, sep)
    ensures ArtifactFile(ScreenshotFile(svg, outputDir, b1, sep), outputDir, sep)
            != ArtifactFile(ScreenshotFile(svg, outputDir, b2, sep), outputDir, sep)
  {
    var s1 := ScreenshotFile(svg, outputDir, b1, sep);
    var s2 := ScreenshotFile(svg, outputDir, b2, sep);
    ScreenPostfixClean(b1);
    ScreenPostfixClean(b2);
    OutputFileLength(svg, outputDir, ScreenPostfix(b1), "png", sep);
    OutputFileLength(svg, outputDir, ScreenPostfix(b2), "png", sep);
    assert |s1| != |s2|;
    OutputFileParts(svg, outputDir, ScreenPostfix(b1), "png", sep);
    OutputFileParts(svg, outputDir, ScreenPostfix(b2), "png", sep);
    var n1 := FileName(s1, sep);
    var n2 := FileName(s2, sep);
    assert |n1| != |n2|;
    assert |Stem(s1, sep)| == |n1| && |Stem(s2, sep)| == |n2|;
    OutputFileLength(s1, outputDir, "-compare-result", "png", sep);
    OutputFileLength(s2, outputDir, "-compare-result", "png", sep);
  }
}
