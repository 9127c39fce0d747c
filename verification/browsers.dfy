/** The closed set of browsers the program can render in (`enum class Browsers`). */
module Browsers {
  import opened Outcomes

  datatype Browser = CHROME | FIREFOX | OPERA | IE

  /** The constant's `name`. */
  function Name(b: Browser): string {
    match b
    case CHROME => "CHROME"
    case FIREFOX => "FIREFOX"
    case OPERA => "OPERA"
    case IE => "IE"
  }

  /** `Browsers.values()`: every constant once, in declaration order. */
  const Values: seq<Browser> := [CHROME, FIREFOX, OPERA, IE]

  /**
   * `Browsers.valueOf(s)`: the constant whose name is exactly `s`; for any other
   * string the JVM throws, modelled as `None`.
   */
  function ValueOf(s: string): (r: Option<Browser>)
    ensures r.Some? ==> Name(r.value) == s
    ensures r.None? ==> forall b: Browser :: Name(b) != s
  {
    if s == "CHROME" then Some(CHROME)
    else if s == "FIREFOX" then Some(FIREFOX)
    else if s == "OPERA" then Some(OPERA)
    else if s == "IE" then Some(IE)
    else None
  }

  /** Looking a constant up by its own name finds that constant. */
  lemma ValueOfName(b: Browser)
    ensures ValueOf(Name(b)) == Some(b)
  {
  }

  /** The names of `Browsers.values()`, the list used when `--browsers` is not given. */
  function DefaultNames(): (names: seq<string>)
    ensures |names| == |Values|
    ensures forall i :: 0 <= i < |names| ==> names[i] == Name(Values[i])
  {
    seq(|Values|, i requires 0 <= i < |Values| => Name(Values[i]))
  }

  /** The default list is CHROME, FIREFOX, OPERA, IE, and every entry is a valid name. */
  lemma DefaultNamesAreValid()
    ensures DefaultNames() == ["CHROME", "FIREFOX", "OPERA", "IE"]
    ensures forall i :: 0 <= i < |DefaultNames()| ==> ValueOf(DefaultNames()[i]).Some?
  {
    var names := DefaultNames();
    assert names[0] == "CHROME" && names[1] == "FIREFOX" && names[2] == "OPERA" && names[3] == "IE";
  }
}
