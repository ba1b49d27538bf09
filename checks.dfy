/** What the five checks find, as functions of the environment and the
    configuration.  Every check walks a list of variable names in order and
    pushes one message for each name its rule flags; `Findings` is that walk,
    and `Evaluate` is the whole run: the messages that end up in `errors`,
    `warnings` and `info`, and the pass/fail verdict. */
module Checks {
  import opened JsText
  import opened Formats
  import opened Seqs
  import opened Catalog
  import opened ProcessEnv

  /** The kinds of message the checks produce. */
  datatype Rule =
    | MissingRequired   // required check: missing or blank
    | TooShort          // required check: shorter than 3 code units
    | RecommendedUnset  // recommended check
    | InvalidFormat     // format check
    | InsecureValue     // insecure-value check
    | Placeholder       // placeholder check

  datatype Severity = Error | Warning | Info

  /** The list each kind of message is pushed onto. */
  function SeverityOf(rule: Rule): Severity {
    match rule
    case MissingRequired => Error
    case TooShort => Warning
    case RecommendedUnset => Info
    case InvalidFormat => Error
    case InsecureValue => Error
    case Placeholder => Warning
  }

  /** Whether `rule` flags variable `name`.  The insecure check's restriction
      to high-stakes environments is applied by the check, not here. */
  predicate Flags(cat: RuleCatalog, rule: Rule, cfg: Config, name: string) {
    match rule
    case MissingRequired => MissingOrBlank(cfg, name)
    case TooShort => !MissingOrBlank(cfg, name) && Utf16Length(cfg.values[name]) < 3
    case RecommendedUnset => MissingOrBlank(cfg, name)
    case InvalidFormat =>
      IsSet(cfg, name) && name in cat.patterns && !Matches(cat.patterns[name], cfg.values[name])
    case InsecureValue =>
      IsSet(cfg, name) && name in cat.insecure
      && ContainsAny(ToLower(cfg.values[name]), cat.insecure[name])
    case Placeholder =>
      IsSet(cfg, name) && ContainsAny(ToLower(cfg.values[name]), cat.placeholders)
  }

  /** The text pushed for `name`; only the insecure message names the
      environment. */
  function Message(rule: Rule, env: string, name: string): string {
    match rule
    case MissingRequired => "Missing required variable: " + name
    case TooShort => name + " is too short (less than 3 characters)"
    case RecommendedUnset => "Recommended variable not set: " + name
    case InvalidFormat => name + " has invalid format"
    case InsecureValue => name + " contains insecure/default value in " + env + " environment"
    case Placeholder => name + " appears to contain a placeholder value"
  }

  const EnvFileLoaded: string := ".env file loaded successfully"
  const EnvFileMissing: string := ".env file not found - using system environment variables"

  /** `names.forEach(name => { if (flagged) list.push(message) })`: the
      messages pushed, in order, by one check walking `names`. */
  function Findings(cat: RuleCatalog, rule: Rule, env: string, cfg: Config, names: seq<string>): (r: seq<string>)
    ensures |r| <= |names|
  {
    if names == [] then []
    else
      var last := names[|names| - 1];
      Findings(cat, rule, env, cfg, names[..|names| - 1])
        + (if Flags(cat, rule, cfg, last) then [Message(rule, env, last)] else [])
  }

  /** Different variables never share a message of the same kind. */
  lemma MessageInjective(rule: Rule, env: string, a: string, b: string)
    requires Message(rule, env, a) == Message(rule, env, b)
    ensures a == b
  {
    var ma := Message(rule, env, a);
    match rule
    case MissingRequired =>
      assert a == ma[|"Missing required variable: "|..];
    case RecommendedUnset =>
      assert a == ma[|"Recommended variable not set: "|..];
    case TooShort =>
      assert a == ma[..|a|] && b == ma[..|b|];
    case InvalidFormat =>
      assert a == ma[..|a|] && b == ma[..|b|];
    case InsecureValue =>
      assert a == ma[..|a|] && b == ma[..|b|];
    case Placeholder =>
      assert a == ma[..|a|] && b == ma[..|b|];
  }

  /** What one step of the walk pushes for `last` counts towards `n` exactly
      when the two are the same flagged variable. */
  lemma StepCount(cat: RuleCatalog, rule: Rule, env: string, cfg: Config, last: string, n: string)
    ensures multiset(if Flags(cat, rule, cfg, last) then [Message(rule, env, last)] else [])
              [Message(rule, env, n)]
         == if Flags(cat, rule, cfg, n) && last == n then 1 else 0
  {
    if Message(rule, env, last) == Message(rule, env, n) {
      MessageInjective(rule, env, last, n);
    }
  }

  /** A check pushes the message for `n` once per occurrence of `n` in the
      walked list when its rule flags `n`, and never otherwise. */
  lemma {:induction false} FindingsCount(cat: RuleCatalog, rule: Rule, env: string, cfg: Config, names: seq<string>, n: string)
    ensures multiset(Findings(cat, rule, env, cfg, names))[Message(rule, env, n)]
         == if Flags(cat, rule, cfg, n) then multiset(names)[n] else 0
  {
    if names != [] {
      var init, last := names[..|names| - 1], names[|names| - 1];
      assert names == init + [last];
      assert multiset(names) == multiset(init) + multiset{last};
      FindingsCount(cat, rule, env, cfg, init, n);
      StepCount(cat, rule, env, cfg, last, n);
    }
  }

  /** Over a repetition-free list, the message for `n` appears exactly once
      if `n` is listed and flagged, and not at all otherwise. */
  lemma FindingsExactlyOnce(cat: RuleCatalog, rule: Rule, env: string, cfg: Config, names: seq<string>, n: string)
    requires Distinct(names)
    ensures multiset(Findings(cat, rule, env, cfg, names))[Message(rule, env, n)]
         == if n in names && Flags(cat, rule, cfg, n) then 1 else 0
  {
    FindingsCount(cat, rule, env, cfg, names, n);
    DistinctOccursOnce(names, n);
  }

  /** Every message a check pushes is the message of a listed, flagged
      variable. */
  lemma {:induction false} FindingsSource(cat: RuleCatalog, rule: Rule, env: string, cfg: Config, names: seq<string>, m: string)
    requires m in Findings(cat, rule, env, cfg, names)
    ensures exists n :: n in names && Flags(cat, rule, cfg, n) && m == Message(rule, env, n)
  {
    var init, last := names[..|names| - 1], names[|names| - 1];
    if m in Findings(cat, rule, env, cfg, init) {
      FindingsSource(cat, rule, env, cfg, init, m);
      var n :| n in init && Flags(cat, rule, cfg, n) && m == Message(rule, env, n);
      assert n in names;
    } else {
      assert last in names && Flags(cat, rule, cfg, last) && m == Message(rule, env, last);
    }
  }

  /** A check pushes nothing exactly when its rule flags none of the walked
      names. */
  lemma {:induction false} FindingsEmpty(cat: RuleCatalog, rule: Rule, env: string, cfg: Config, names: seq<string>)
    ensures Findings(cat, rule, env, cfg, names) == [] <==> forall n :: n in names ==> !Flags(cat, rule, cfg, n)
  {
    if names != [] {
      var init, last := names[..|names| - 1], names[|names| - 1];
      assert names == init + [last];
      FindingsEmpty(cat, rule, env, cfg, init);
    }
  }

  /** Apart from the insecure message, what a check pushes does not depend
      on the environment's name. */
  lemma {:induction false} FindingsIgnoreEnvironment(cat: RuleCatalog, rule: Rule, env: string, env': string, cfg: Config, names: seq<string>)
    requires rule != InsecureValue
    ensures Findings(cat, rule, env, cfg, names) == Findings(cat, rule, env', cfg, names)
  {
    if names != [] {
      FindingsIgnoreEnvironment(cat, rule, env, env', cfg, names[..|names| - 1]);
    }
  }
  // The contribution of each check.

  function LoadWarnings(envFileFound: bool): seq<string> {
    if envFileFound then [] else [EnvFileMissing]
  }

  function LoadInfo(envFileFound: bool): seq<string> {
    if envFileFound then [EnvFileLoaded] else []
  }

  function RequiredErrors(cat: RuleCatalog, env: string, cfg: Config): seq<string>
    requires Development in cat.required
  {
    Findings(cat, MissingRequired, env, cfg, RequiredFor(cat, env))
  }

  function RequiredWarnings(cat: RuleCatalog, env: string, cfg: Config): seq<string>
    requires Development in cat.required
  {
    Findings(cat, TooShort, env, cfg, RequiredFor(cat, env))
  }

  function RecommendedInfo(cat: RuleCatalog, env: string, cfg: Config): seq<string> {
    Findings(cat, RecommendedUnset, env, cfg, RecommendedFor(cat, env))
  }

  function FormatErrors(cat: RuleCatalog, env: string, cfg: Config): seq<string> {
    Findings(cat, InvalidFormat, env, cfg, cat.patternNames)
  }

  function InsecureErrors(cat: RuleCatalog, env: string, cfg: Config): seq<string> {
    if IsHighStakes(env) then Findings(cat, InsecureValue, env, cfg, cat.insecureNames) else []
  }

  function PlaceholderWarnings(cat: RuleCatalog, env: string, cfg: Config): seq<string> {
    Findings(cat, Placeholder, env, cfg, cfg.order)
  }

  /** The three lists at the end of a run. */
  datatype Report = Report(errors: seq<string>, warnings: seq<string>, info: seq<string>) {
    /** `this.errors.length === 0` */
    predicate Passed() {
      errors == []
    }
  }

  /** A whole run: load status, then required, recommended, format,
      insecure and placeholder checks, each appending to its lists; no check
      is skipped because an earlier one found errors. */
  function Evaluate(cat: RuleCatalog, env: string, envFileFound: bool, cfg: Config): Report
    requires Development in cat.required
  {
    Report(
      RequiredErrors(cat, env, cfg) + FormatErrors(cat, env, cfg) + InsecureErrors(cat, env, cfg),
      LoadWarnings(envFileFound) + RequiredWarnings(cat, env, cfg) + PlaceholderWarnings(cat, env, cfg),
      LoadInfo(envFileFound) + RecommendedInfo(cat, env, cfg))
  }

  /** The run stops with a `TypeError` when the required or the recommended
      lookup for the environment lands on an inherited member; nothing in the
      script catches it. */
  predicate Throws(cat: RuleCatalog, env: string) {
    LookupHitsPrototype(cat.required, env) || LookupHitsPrototype(cat.recommended, env)
  }

  /** Exit status 0: the run completes and records no error. */
  predicate Succeeds(cat: RuleCatalog, env: string, envFileFound: bool, cfg: Config)
    requires Development in cat.required
  {
    !Throws(cat, env) && Evaluate(cat, env, envFileFound, cfg).Passed()
  }

  // Properties of each check, for any well-formed catalog.

  /** Required check: one "missing" error per required variable that is
      absent, empty or white space only; otherwise one "too short" warning if
      its untrimmed JavaScript length is below 3; never both. */
  lemma RequiredCheck(cat: RuleCatalog, env: string, cfg: Config, n: string)
    requires WellFormedCatalog(cat)
    ensures multiset(RequiredErrors(cat, env, cfg))[Message(MissingRequired, env, n)]
         == if n in RequiredFor(cat, env) && MissingOrBlank(cfg, n) then 1 else 0
    ensures multiset(RequiredWarnings(cat, env, cfg))[Message(TooShort, env, n)]
         == if n in RequiredFor(cat, env) && !MissingOrBlank(cfg, n) && Utf16Length(cfg.values[n]) < 3
            then 1 else 0
    ensures !(Message(MissingRequired, env, n) in RequiredErrors(cat, env, cfg)
              && Message(TooShort, env, n) in RequiredWarnings(cat, env, cfg))
  {
    var names := RequiredFor(cat, env);
    assert Distinct(names);
    FindingsExactlyOnce(cat, MissingRequired, env, cfg, names, n);
    FindingsExactlyOnce(cat, TooShort, env, cfg, names, n);
  }

  /** Recommended check: one info entry per recommended variable that is
      missing or blank; an environment without a recommended list gets
      none. */
  lemma RecommendedCheck(cat: RuleCatalog, env: string, cfg: Config, n: string)
    requires WellFormedCatalog(cat)
    ensures multiset(RecommendedInfo(cat, env, cfg))[Message(RecommendedUnset, env, n)]
         == if n in RecommendedFor(cat, env) && MissingOrBlank(cfg, n) then 1 else 0
    ensures env !in cat.recommended ==> RecommendedInfo(cat, env, cfg) == []
  {
    var names := RecommendedFor(cat, env);
    assert Distinct(names);
    FindingsExactlyOnce(cat, RecommendedUnset, env, cfg, names, n);
  }

  /** Format check: one error per patterned variable whose value is set and
      fails its pattern; an absent or empty value is never an error here. */
  lemma FormatCheck(cat: RuleCatalog, env: string, cfg: Config, n: string)
    requires WellFormedCatalog(cat)
    ensures multiset(FormatErrors(cat, env, cfg))[Message(InvalidFormat, env, n)]
         == if n in cat.patterns && IsSet(cfg, n) && !Matches(cat.patterns[n], cfg.values[n])
            then 1 else 0
    ensures !IsSet(cfg, n) ==> Message(InvalidFormat, env, n) !in FormatErrors(cat, env, cfg)
  {
    FindingsExactlyOnce(cat, InvalidFormat, env, cfg, cat.patternNames, n);
  }

  /** Insecure check: nothing outside staging and production; there, one
      error per listed variable whose lower-cased value contains one of its
      forbidden substrings. */
  lemma InsecureCheck(cat: RuleCatalog, env: string, cfg: Config, n: string)
    requires WellFormedCatalog(cat)
    ensures !IsHighStakes(env) ==> InsecureErrors(cat, env, cfg) == []
    ensures multiset(InsecureErrors(cat, env, cfg))[Message(InsecureValue, env, n)]
         == if IsHighStakes(env) && n in cat.insecure && IsSet(cfg, n)
               && ContainsAny(ToLower(cfg.values[n]), cat.insecure[n])
            then 1 else 0
  {
    FindingsExactlyOnce(cat, InsecureValue, env, cfg, cat.insecureNames, n);
  }

  /** Placeholder check: it visits every configured variable, catalogued or
      not, and warns once for each set value containing a marker. */
  lemma PlaceholderCheck(cat: RuleCatalog, env: string, cfg: Config, n: string)
    requires WellFormed(cfg)
    ensures multiset(PlaceholderWarnings(cat, env, cfg))[Message(Placeholder, env, n)]
         == if IsSet(cfg, n) && ContainsAny(ToLower(cfg.values[n]), cat.placeholders)
            then 1 else 0
  {
    FindingsExactlyOnce(cat, Placeholder, env, cfg, cfg.order, n);
  }

  /** With lower-case markers, the insecure check is case-insensitive: it
      flags a set listed variable exactly when one of its markers occurs in
      the value in any mix of ASCII upper and lower case. */
  lemma InsecureIgnoresCase(cat: RuleCatalog, cfg: Config, n: string)
    requires n in cat.insecure ==> LowerCaseMarkers(cat.insecure[n])
    ensures Flags(cat, InsecureValue, cfg, n)
        <==> IsSet(cfg, n) && n in cat.insecure
             && exists p | p in cat.insecure[n] :: ContainsIgnoringCase(cfg.values[n], p)
  {
    if IsSet(cfg, n) && n in cat.insecure {
      LoweredSearchAnyIgnoresCase(cfg.values[n], cat.insecure[n]);
    }
  }

  /** Likewise the placeholder check. */
  lemma PlaceholderIgnoresCase(cat: RuleCatalog, cfg: Config, n: string)
    requires LowerCaseMarkers(cat.placeholders)
    ensures Flags(cat, Placeholder, cfg, n)
        <==> IsSet(cfg, n)
             && exists p | p in cat.placeholders :: ContainsIgnoringCase(cfg.values[n], p)
  {
    if IsSet(cfg, n) {
      LoweredSearchAnyIgnoresCase(cfg.values[n], cat.placeholders);
    }
  }

  // Properties of a whole run.

  /** The run passes exactly when every required variable is set and not
      blank, every set patterned variable matches its pattern and, in staging
      and production, no set listed variable contains a forbidden substring.
      Warnings, info and the `.env` status play no part. */
  lemma PassedIff(cat: RuleCatalog, env: string, envFileFound: bool, cfg: Config)
    requires WellFormedCatalog(cat)
    ensures Evaluate(cat, env, envFileFound, cfg).Passed() <==>
      && (forall n :: n in RequiredFor(cat, env) ==> !MissingOrBlank(cfg, n))
      && (forall n :: n in cat.patterns && IsSet(cfg, n) ==> Matches(cat.patterns[n], cfg.values[n]))
      && (IsHighStakes(env) ==>
            forall n :: n in cat.insecure && IsSet(cfg, n) ==>
              !ContainsAny(ToLower(cfg.values[n]), cat.insecure[n]))
  {
    FindingsEmpty(cat, MissingRequired, env, cfg, RequiredFor(cat, env));
    FormatErrorsEmpty(cat, env, cfg);
    InsecureErrorsEmpty(cat, env, cfg);
  }

  /** The exit status is 0 exactly when the environment does not name an
      inherited member that the tables lack and the run records no error. */
  lemma SucceedsIff(cat: RuleCatalog, env: string, envFileFound: bool, cfg: Config)
    requires WellFormedCatalog(cat)
    ensures Succeeds(cat, env, envFileFound, cfg) <==>
      && !(env in InheritedMembers && (env !in cat.required || env !in cat.recommended))
      && (forall n :: n in RequiredFor(cat, env) ==> !MissingOrBlank(cfg, n))
      && (forall n :: n in cat.patterns && IsSet(cfg, n) ==> Matches(cat.patterns[n], cfg.values[n]))
      && (IsHighStakes(env) ==>
            forall n :: n in cat.insecure && IsSet(cfg, n) ==>
              !ContainsAny(ToLower(cfg.values[n]), cat.insecure[n]))
  {
    PassedIff(cat, env, envFileFound, cfg);
  }

  lemma FormatErrorsEmpty(cat: RuleCatalog, env: string, cfg: Config)
    requires WellFormedCatalog(cat)
    ensures FormatErrors(cat, env, cfg) == [] <==>
      forall n :: n in cat.patterns && IsSet(cfg, n) ==> Matches(cat.patterns[n], cfg.values[n])
  {
    FindingsEmpty(cat, InvalidFormat, env, cfg, cat.patternNames);
  }

  lemma InsecureErrorsEmpty(cat: RuleCatalog, env: string, cfg: Config)
    requires WellFormedCatalog(cat)
    ensures InsecureErrors(cat, env, cfg) == [] <==>
      (IsHighStakes(env) ==>
         forall n :: n in cat.insecure && IsSet(cfg, n) ==>
           !ContainsAny(ToLower(cfg.values[n]), cat.insecure[n]))
  {
    FindingsEmpty(cat, InsecureValue, env, cfg, cat.insecureNames);
  }

  /** Every error of a run is the message of an error-severity rule for a
      variable that rule flags. */
  lemma ErrorsAreErrorRules(cat: RuleCatalog, env: string, envFileFound: bool, cfg: Config, m: string)
    requires Development in cat.required
    requires m in Evaluate(cat, env, envFileFound, cfg).errors
    ensures exists rule, n :: SeverityOf(rule) == Error && Flags(cat, rule, cfg, n) && m == Message(rule, env, n)
  {
    if m in RequiredErrors(cat, env, cfg) {
      FindingsSource(cat, MissingRequired, env, cfg, RequiredFor(cat, env), m);
      var n :| n in RequiredFor(cat, env) && Flags(cat, MissingRequired, cfg, n)
        && m == Message(MissingRequired, env, n);
      assert SeverityOf(MissingRequired) == Error;
    } else if m in FormatErrors(cat, env, cfg) {
      FindingsSource(cat, InvalidFormat, env, cfg, cat.patternNames, m);
      var n :| n in cat.patternNames && Flags(cat, InvalidFormat, cfg, n)
        && m == Message(InvalidFormat, env, n);
      assert SeverityOf(InvalidFormat) == Error;
    } else {
      assert m in Findings(cat, InsecureValue, env, cfg, cat.insecureNames);
      FindingsSource(cat, InsecureValue, env, cfg, cat.insecureNames, m);
      var n :| n in cat.insecureNames && Flags(cat, InsecureValue, cfg, n)
        && m == Message(InsecureValue, env, n);
      assert SeverityOf(InsecureValue) == Error;
    }
  }

  /** An environment that has no entry in the catalog and is not a
      high-stakes one is run with the development required list and no
      recommended list: its errors and warnings are those of a development
      run, and its info is only the load status.  (When such a name is an
      inherited member the run throws instead; see `Throws`.) */
  lemma UnknownEnvironment(cat: RuleCatalog, env: string, envFileFound: bool, cfg: Config)
    requires Development in cat.required
    requires env !in cat.required && env !in cat.recommended && !IsHighStakes(env)
    ensures Evaluate(cat, env, envFileFound, cfg).errors == Evaluate(cat, Development, envFileFound, cfg).errors
    ensures Evaluate(cat, env, envFileFound, cfg).warnings == Evaluate(cat, Development, envFileFound, cfg).warnings
    ensures Evaluate(cat, env, envFileFound, cfg).info == LoadInfo(envFileFound)
  {
    var names := RequiredFor(cat, env);
    assert names == RequiredFor(cat, Development);
    FindingsIgnoreEnvironment(cat, MissingRequired, env, Development, cfg, names);
    FindingsIgnoreEnvironment(cat, InvalidFormat, env, Development, cfg, cat.patternNames);
    FindingsIgnoreEnvironment(cat, TooShort, env, Development, cfg, names);
    FindingsIgnoreEnvironment(cat, Placeholder, env, Development, cfg, cfg.order);
  }
}
