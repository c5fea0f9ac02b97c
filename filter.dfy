/**
 * A name or file-name filter (config/filter.go): exact text, or a regular
 * expression when the text is wrapped in slashes.
 *
 * The regular-expression engine is not modelled; a `RegexEngine` stands for
 * it: `Check` says whether a pattern compiles (`None`) or gives the compile
 * error's text, and `MatchString` says whether a compiled pattern matches.
 */
module Filters {
  import opened Wrappers
  import opened GoStrings
  import opened Errors

  datatype RegexEngine = RegexEngine(Check: string -> Option<string>, MatchString: (string, string) -> bool)

  /** A compiled regular expression, known by its source pattern. */
  datatype Regexp = Regexp(Expr: string)

  /** `regex == None` is Go's nil `*regexp.Regexp`. */
  datatype Filter = Filter(text: string, regex: Option<Regexp>) {
    /** `Match`: without a regex the text must be equal; with one, the engine decides. */
    function Match(s: string, engine: RegexEngine): (r: bool)
      ensures regex.None? ==> (r <==> s == text)
      ensures regex.Some? ==> (r <==> engine.MatchString(regex.value.Expr, s))
    {
      if regex.None? then s == text else engine.MatchString(regex.value.Expr, s)
    }
  }

  /** The zero value of a `Filter`, which the YAML decoder unmarshals into. */
  const ZeroFilter := Filter("", None)

  /** Text that selects regular-expression mode. */
  predicate IsRegexText(text: string) {
    HasPrefix(text, "/") && HasSuffix(text, "/") && |text| > 2
  }

  /** The new value of the receiver, and the error returned. */
  datatype Unmarshalled = Unmarshalled(filter: Filter, err: Option<Error>)

  /**
   * `UnmarshalText` on a receiver holding `f`. The text is always stored; only
   * wrapped text is compiled, and then the regex field becomes the compiled
   * inner pattern, or nil when compiling fails. Other text leaves the regex
   * field as it was.
   */
  function UnmarshalText(f: Filter, text: string, engine: RegexEngine): (r: Unmarshalled)
    ensures r.filter.text == text
    ensures r.err.Some? ==> IsRegexText(text)
    ensures !IsRegexText(text) ==> r.filter.regex == f.regex
    ensures IsRegexText(text) ==> var pattern := text[1..|text| - 1];
      && (r.err.None? <==> engine.Check(pattern).None?)
      && (r.err.None? ==> r.filter.regex == Some(Regexp(pattern)))
      && (r.err.Some? ==> r.filter.regex.None? && r.err == Some(Message(engine.Check(pattern).value)))
  {
    if IsRegexText(text) then
      var pattern := text[1..|text| - 1];
      match engine.Check(pattern)
      case None => Unmarshalled(Filter(text, Some(Regexp(pattern))), None)
      case Some(msg) => Unmarshalled(Filter(text, None), Some(Message(msg)))
    else
      Unmarshalled(Filter(text, f.regex), None)
  }

  /** A fresh filter built from unwrapped text matches that text and nothing else. */
  lemma ExactFilterMatchesOnlyItsText(text: string, engine: RegexEngine, s: string)
    requires !IsRegexText(text)
    ensures UnmarshalText(ZeroFilter, text, engine).err.None?
    ensures UnmarshalText(ZeroFilter, text, engine).filter.Match(s, engine) <==> s == text
  {
  }

  /** A filter built from "/p/" matches exactly what the pattern p matches. */
  lemma RegexFilterMatchesByPattern(p: string, f: Filter, engine: RegexEngine, s: string)
    requires |p| > 0 && engine.Check(p).None?
    ensures var r := UnmarshalText(f, "/" + p + "/", engine);
      r.err.None? && (r.filter.Match(s, engine) <==> engine.MatchString(p, s))
  {
    var text := "/" + p + "/";
    assert text[1..|text| - 1] == p;
    assert IsRegexText(text);
  }

  /** "/" and "//" are too short to be patterns: they stay exact texts. */
  lemma SlashesAloneAreExact(engine: RegexEngine)
    ensures UnmarshalText(ZeroFilter, "/", engine) == Unmarshalled(Filter("/", None), None)
    ensures UnmarshalText(ZeroFilter, "//", engine) == Unmarshalled(Filter("//", None), None)
  {
  }
}
