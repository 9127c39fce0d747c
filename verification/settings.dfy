/**
 * The typed getters of `ProgramSettings`, over the loaded key/value store.
 * Loading, saving and the interactive wizard are not modelled; the store is
 * given as a map from key to value.
 */
module Settings {
  import opened Outcomes
  import opened Text
  import opened Files

  const FuzzKey: string := "imCompareFuzzValue"
  const ThresholdKey: string := "imCompareErrCountPixelThreshold"
  const ImageMagickKey: string := "IMAGEMAGICK"

  const EmptyStoreMessage: string := "Property file is empty or not found."

  /** The two values `resetSettings` writes when no wizard input overrides them. */
  const DefaultFuzz: string := "15"
  const DefaultThreshold: string := "500"

  /** The value stored under `key`, when it is present and not empty. */
  predicate HasValue(props: map<string, string>, key: string) {
    key in props && props[key] != ""
  }

  /**
   * `getImFuzz()`: the fuzz factor, kept as the text `toDouble()` accepted
   * (the floating-point value itself is not modelled).
   */
  function GetImFuzz(props: map<string, string>): (r: Result<string>)
    ensures r.Ok? <==> |props| > 0 && HasValue(props, FuzzKey) && IsJavaDouble(props[FuzzKey])
    ensures r.Ok? ==> r.value == props[FuzzKey]
    ensures r.Err? ==> r.failure.IllegalState?
  {
    if |props| == 0 then Err(IllegalState(EmptyStoreMessage))
    else if HasValue(props, FuzzKey) then
      if IsJavaDouble(props[FuzzKey]) then Ok(props[FuzzKey])
      else Err(IllegalState("Value of parameter \"imCompareFuzzValue\" is not Double."))
    else Err(IllegalState("Parameter \"imCompareFuzzValue\" in settings file is empty."))
  }

  /** `getImErrPixelCountThreshold()`: the largest tolerated count of differing pixels. */
  function GetImErrPixelCountThreshold(props: map<string, string>): (r: Result<int>)
    ensures r.Ok? <==> |props| > 0 && HasValue(props, ThresholdKey) && ParseInt(props[ThresholdKey]).Some?
    ensures r.Ok? ==> Some(r.value) == ParseInt(props[ThresholdKey]) && InIntRange(r.value)
    ensures r.Err? ==> r.failure.IllegalState?
  {
    if |props| == 0 then Err(IllegalState(EmptyStoreMessage))
    else if HasValue(props, ThresholdKey) then
      match ParseInt(props[ThresholdKey])
      case Some(n) => Ok(n)
      case None => Err(IllegalState("Value of parameter \"imCompareErrCountPixelThreshold\" is not Integer."))
    else Err(IllegalState("Parameter \"imCompareErrCountPixelThreshold\" in settings file is empty."))
  }

  /** `getImageMagick()`: the configured ImageMagick directory, which must exist. */
  function GetImageMagick(props: map<string, string>, env: Env): (r: Result<string>)
    ensures r.Ok? <==> |props| > 0 && HasValue(props, ImageMagickKey) && env.fileExists(props[ImageMagickKey])
    ensures r.Ok? ==> r.value == props[ImageMagickKey]
    ensures r.Err? ==> (r.failure.IllegalState? <==> |props| == 0)
    ensures r.Err? ==> r.failure.IllegalState? || r.failure.FileNotFound?
  {
    if |props| == 0 then Err(IllegalState(EmptyStoreMessage))
    else if HasValue(props, ImageMagickKey) then
      var dir := props[ImageMagickKey];
      if env.fileExists(dir) then Ok(dir)
      else Err(FileNotFound("File " + AbsolutePath(env.plat, dir) + " not found."))
    else Err(FileNotFound("Can't get file because parameter \"IMAGEMAGICK\" in settings file is empty."))
  }

  /** A threshold stored as an `Int`'s text is read back as that `Int`. */
  lemma ThresholdRoundTrip(props: map<string, string>, n: int)
    requires InIntRange(n)
    ensures GetImErrPixelCountThreshold(props[ThresholdKey := IntToString(n)]) == Ok(n)
  {
    ParseIntToString(n);
    var s := IntToString(n);
    assert s != "" by { assert ParseInt(s).Some?; }
  }

  /** Whatever else the store holds, the defaults written on reset read back as 15 and 500. */
  lemma DefaultsReadBack(props: map<string, string>)
    ensures GetImFuzz(props[FuzzKey := DefaultFuzz]) == Ok("15")
    ensures GetImErrPixelCountThreshold(props[ThresholdKey := DefaultThreshold]) == Ok(500)
  {
    assert IntToString(500) == DefaultThreshold by {
      assert NatToDigits(500) == NatToDigits(50) + [DigitChar(0)];
      assert NatToDigits(50) == NatToDigits(5) + [DigitChar(0)];
    }
    ThresholdRoundTrip(props, 500);
    assert IsJavaDouble(DefaultFuzz) by {
      assert Trim(DefaultFuzz) == DefaultFuzz;
      assert LeadingDigits(DefaultFuzz) == 2 by {
        assert LeadingDigits(DefaultFuzz[1..][1..]) == 0;
      }
    }
  }

  /**
   * `toDouble()` accepts a Java type suffix, so the value "12d" is read as the
   * fuzz factor 12 rather than rejected as "not Double"; the same text is not
   * an integer threshold.
   */
  lemma FuzzAcceptsTypeSuffix(props: map<string, string>)
    ensures GetImFuzz(props[FuzzKey := "12d"]) == Ok("12d")
    ensures GetImErrPixelCountThreshold(props[ThresholdKey := "12d"]).Err?
  {
    var t := "12d";
    assert Trim(t) == t;
    assert LeadingDigits(t) == 2 by {
      assert LeadingDigits(t[1..][1..]) == 0;
    }
    assert t[2..] == "d";
    assert IsTypeSuffix("d");
    assert IsExponentAndSuffix("d");
    assert IsDecimalFloat(t);
    assert ParseInt(t).None? by { assert !IsDigit(t[2]); }
  }
}
