/** Concrete cases of the checks on the script's catalog, one scenario per
    lemma.  Each scenario fixes only the variables it is about: it holds for
    every configuration in which those variables have the stated values. */
module Scenarios {
  import opened JsText
  import opened Formats
  import opened Catalog
  import opened ProcessEnv
  import opened Checks

  /** Variable `name` is defined and holds `value`. */
  predicate Holds(cfg: Config, name: string, value: string) {
    name in cfg.values && cfg.values[name] == value
  }

  /** With PORT unset and NODE_ENV set, development reports PORT as missing
      once and does not report NODE_ENV. */
  lemma MissingRequiredExample(cfg: Config)
    requires "PORT" !in cfg.values && Holds(cfg, "NODE_ENV", "development")
    ensures multiset(RequiredErrors(Source, Development, cfg))
              [Message(MissingRequired, Development, "PORT")] == 1
    ensures multiset(RequiredErrors(Source, Development, cfg))
              [Message(MissingRequired, Development, "NODE_ENV")] == 0
  {
    SourceWellFormed();
    assert !IsWhiteSpace(cfg.values["NODE_ENV"][0]);
    RequiredCheck(Source, Development, cfg, "PORT");
    RequiredCheck(Source, Development, cfg, "NODE_ENV");
  }

  /** A two-character value of a required variable is a warning, not an
      error. */
  lemma TooShortExample(cfg: Config)
    requires Holds(cfg, "NODE_ENV", "ab")
    ensures multiset(RequiredWarnings(Source, Development, cfg))
              [Message(TooShort, Development, "NODE_ENV")] == 1
    ensures multiset(RequiredErrors(Source, Development, cfg))
              [Message(MissingRequired, Development, "NODE_ENV")] == 0
  {
    SourceWellFormed();
    assert !IsWhiteSpace(cfg.values["NODE_ENV"][0]);
    Utf16LengthBmp("ab");
    RequiredCheck(Source, Development, cfg, "NODE_ENV");
  }

  /** The length test counts the untrimmed value: two spaces and a letter
      make three characters, and the value is not blank, so NODE_ENV gets
      neither message. */
  lemma UntrimmedLengthExample(cfg: Config)
    requires Holds(cfg, "NODE_ENV", "  x")
    ensures multiset(RequiredWarnings(Source, Development, cfg))
              [Message(TooShort, Development, "NODE_ENV")] == 0
    ensures multiset(RequiredErrors(Source, Development, cfg))
              [Message(MissingRequired, Development, "NODE_ENV")] == 0
  {
    SourceWellFormed();
    assert !IsWhiteSpace(cfg.values["NODE_ENV"][2]);
    Utf16LengthBmp("  x");
    RequiredCheck(Source, Development, cfg, "NODE_ENV");
  }

  /** JavaScript counts a character outside the Basic Multilingual Plane as
      two code units: one such character alone is too short. */
  lemma AstralTooShortExample(cfg: Config)
    requires Holds(cfg, "NODE_ENV", "\U{1F600}")
    ensures multiset(RequiredWarnings(Source, Development, cfg))
              [Message(TooShort, Development, "NODE_ENV")] == 1
  {
    SourceWellFormed();
    var v := cfg.values["NODE_ENV"];
    assert !IsWhiteSpace(v[0]);
    assert v == [] + ['\U{1F600}'];
    Utf16LengthAppend([], ['\U{1F600}']);
    RequiredCheck(Source, Development, cfg, "NODE_ENV");
  }

  /** One letter before that character reaches the three code units. */
  lemma AstralLongEnoughExample(cfg: Config)
    requires Holds(cfg, "NODE_ENV", "a\U{1F600}")
    ensures multiset(RequiredWarnings(Source, Development, cfg))
              [Message(TooShort, Development, "NODE_ENV")] == 0
  {
    SourceWellFormed();
    var v := cfg.values["NODE_ENV"];
    assert !IsWhiteSpace(v[0]);
    assert v == ['a'] + ['\U{1F600}'];
    Utf16LengthAppend(['a'], ['\U{1F600}']);
    RequiredCheck(Source, Development, cfg, "NODE_ENV");
  }

  /** An absent PORT is not a format error. */
  lemma PortAbsentExample(env: string, cfg: Config)
    requires "PORT" !in cfg.values
    ensures Message(InvalidFormat, env, "PORT") !in FormatErrors(Source, env, cfg)
  {
    SourceWellFormed();
    FormatCheck(Source, env, cfg, "PORT");
  }

  /** PORT = "abc" is exactly one format error, in every environment. */
  lemma PortNotDigitsExample(env: string, cfg: Config)
    requires Holds(cfg, "PORT", "abc")
    ensures multiset(FormatErrors(Source, env, cfg))[Message(InvalidFormat, env, "PORT")] == 1
  {
    SourceWellFormed();
    assert !IsDigit(cfg.values["PORT"][0]);
    FormatCheck(Source, env, cfg, "PORT");
  }

  /** In production a JWT_SECRET with "secret" anywhere in it, in any mix of
      cases, is exactly one error. */
  lemma InsecureInProduction(cfg: Config, a: string, s: string, b: string)
    requires ToLower(s) == "secret" && Holds(cfg, "JWT_SECRET", a + s + b)
    ensures multiset(InsecureErrors(Source, "production", cfg))
              [Message(InsecureValue, "production", "JWT_SECRET")] == 1
  {
    SourceWellFormed();
    var v := a + s + b;
    ToLowerAppend(a, s);
    ToLowerAppend(a + s, b);
    ContainsInfix(ToLower(a), "secret", ToLower(b));
    assert ContainsAny(ToLower(v), Source.insecure["JWT_SECRET"]);
    InsecureCheck(Source, "production", cfg, "JWT_SECRET");
  }

  /** A variable that no rule mentions is still scanned for placeholders,
      in every environment, and yields one warning. */
  lemma PlaceholderExample(env: string, cfg: Config)
    requires WellFormed(cfg) && Holds(cfg, "RANDOM_KEY", "your-value-here")
    ensures multiset(PlaceholderWarnings(Source, env, cfg))
              [Message(Placeholder, env, "RANDOM_KEY")] == 1
  {
    var v := cfg.values["RANDOM_KEY"];
    assert ToLower(v) == "your-value-here";
    assert "your-value-here" == "" + "your-" + "value-here";
    ContainsInfix("", "your-", "value-here");
    assert ContainsAny(ToLower(v), Source.placeholders);
    PlaceholderCheck(Source, env, cfg, "RANDOM_KEY");
  }

  /** A configuration holding only such a variable has no format or
      insecure-value error, in every environment. */
  lemma UncataloguedNoErrors(env: string, cfg: Config)
    requires cfg.values.Keys == {"RANDOM_KEY"}
    ensures FormatErrors(Source, env, cfg) == []
    ensures InsecureErrors(Source, env, cfg) == []
  {
    SourceWellFormed();
    assert "RANDOM_KEY" !in Source.patterns && "RANDOM_KEY" !in Source.insecure;
    FormatErrorsEmpty(Source, env, cfg);
    InsecureErrorsEmpty(Source, env, cfg);
  }

  /** NODE_ENV=constructor fails whatever the configuration: the required
      lookup finds `Object`, and its `forEach` throws. */
  lemma InheritedEnvironmentFails(envFileFound: bool, cfg: Config)
    ensures ActiveEnvironment(Some("constructor")) == "constructor"
    ensures Throws(Source, "constructor")
    ensures !Succeeds(Source, "constructor", envFileFound, cfg)
  {
    SourceFallback("constructor");
  }
}
