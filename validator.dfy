/** The validator object: the environment chosen at construction and the
    three message lists that the checks append to.  Each check is a loop over
    a catalog list (or over all configured variables) that pushes onto the
    lists, proved to append exactly what `Checks` says that check finds. */
module Validator {
  import opened JsText
  import opened Formats
  import opened Catalog
  import opened ProcessEnv
  import opened Checks

  /** How `validate()` ends: it returns its verdict, or a check throws. */
  datatype Outcome = Returned(passed: bool) | Threw

  class EnvValidator {
    const catalog: RuleCatalog
    const env: string
    var errors: seq<string>
    var warnings: seq<string>
    var info: seq<string>

    /** The environment is read once, before any `.env` file is loaded. */
    constructor (nodeEnv: Option<string>)
      ensures catalog == Source && WellFormedCatalog(catalog)
      ensures env == ActiveEnvironment(nodeEnv)
      ensures env != ""
      ensures errors == [] && warnings == [] && info == []
    {
      SourceWellFormed();
      catalog := Source;
      env := ActiveEnvironment(nodeEnv);
      errors, warnings, info := [], [], [];
    }

    /** Only the status message of loading `.env`; the variables it defines
        are already part of the configuration the checks receive. */
    method LoadEnvFile(envFileFound: bool)
      modifies this`warnings, this`info
      ensures warnings == old(warnings) + LoadWarnings(envFileFound)
      ensures info == old(info) + LoadInfo(envFileFound)
    {
      if envFileFound {
        info := info + [EnvFileLoaded];
      } else {
        warnings := warnings + [EnvFileMissing];
      }
    }

    /** `thrown` reports the `TypeError` of calling `forEach` on an
        inherited member; it is raised before any message is pushed. */
    method ValidateRequiredVariables(config: Config) returns (thrown: bool)
      requires WellFormedCatalog(catalog)
      modifies this`errors, this`warnings
      ensures thrown <==> LookupHitsPrototype(catalog.required, env)
      ensures thrown ==> errors == old(errors) && warnings == old(warnings)
      ensures !thrown ==> errors == old(errors) + RequiredErrors(catalog, env, config)
      ensures !thrown ==> warnings == old(warnings) + RequiredWarnings(catalog, env, config)
    {
      thrown := LookupHitsPrototype(catalog.required, env);
      if thrown {
        return;
      }
      var required := RequiredFor(catalog, env);
      var i := 0;
      while i < |required|
        invariant 0 <= i <= |required|
        invariant errors == old(errors) + Findings(catalog, MissingRequired, env, config, required[..i])
        invariant warnings == old(warnings) + Findings(catalog, TooShort, env, config, required[..i])
      {
        var name := required[i];
        var value := Get(config, name);
        if !Truthy(value) || IsBlank(value.value) {
          errors := errors + [Message(MissingRequired, env, name)];
        } else if Utf16Length(value.value) < 3 {
          warnings := warnings + [Message(TooShort, env, name)];
        }
        assert required[..i + 1][..i] == required[..i];
        i := i + 1;
      }
      assert required[..i] == required;
    }

    method ValidateRecommendedVariables(config: Config) returns (thrown: bool)
      requires WellFormedCatalog(catalog)
      modifies this`info
      ensures thrown <==> LookupHitsPrototype(catalog.recommended, env)
      ensures thrown ==> info == old(info)
      ensures !thrown ==> info == old(info) + RecommendedInfo(catalog, env, config)
    {
      thrown := LookupHitsPrototype(catalog.recommended, env);
      if thrown {
        return;
      }
      var recommended := RecommendedFor(catalog, env);
      var i := 0;
      while i < |recommended|
        invariant 0 <= i <= |recommended|
        invariant info == old(info) + Findings(catalog, RecommendedUnset, env, config, recommended[..i])
      {
        var name := recommended[i];
        var value := Get(config, name);
        if !Truthy(value) || IsBlank(value.value) {
          info := info + [Message(RecommendedUnset, env, name)];
        }
        assert recommended[..i + 1][..i] == recommended[..i];
        i := i + 1;
      }
      assert recommended[..i] == recommended;
    }

    method ValidatePatterns(config: Config)
      requires WellFormedCatalog(catalog)
      modifies this`errors
      ensures errors == old(errors) + FormatErrors(catalog, env, config)
    {
      var names := catalog.patternNames;
      var i := 0;
      while i < |names|
        invariant 0 <= i <= |names|
        invariant errors == old(errors) + Findings(catalog, InvalidFormat, env, config, names[..i])
      {
        var name := names[i];
        var value := Get(config, name);
        if Truthy(value) && !Matches(catalog.patterns[name], value.value) {
          errors := errors + [Message(InvalidFormat, env, name)];
        }
        assert names[..i + 1][..i] == names[..i];
        i := i + 1;
      }
      assert names[..i] == names;
    }

    method CheckInsecureValues(config: Config)
      requires WellFormedCatalog(catalog)
      modifies this`errors
      ensures errors == old(errors) + InsecureErrors(catalog, env, config)
    {
      // Only staging and production are checked.
      if !IsHighStakes(env) {
        return;
      }
      var names := catalog.insecureNames;
      var i := 0;
      while i < |names|
        invariant 0 <= i <= |names|
        invariant errors == old(errors) + Findings(catalog, InsecureValue, env, config, names[..i])
      {
        var name := names[i];
        var value := Get(config, name);
        if Truthy(value) {
          var lowerValue := ToLower(value.value);
          var hasInsecurePattern := ContainsAny(lowerValue, catalog.insecure[name]);
          if hasInsecurePattern {
            errors := errors + [Message(InsecureValue, env, name)];
          }
        }
        assert names[..i + 1][..i] == names[..i];
        i := i + 1;
      }
      assert names[..i] == names;
    }

    method CheckPlaceholders(config: Config)
      requires WellFormedCatalog(catalog)
      modifies this`warnings
      ensures warnings == old(warnings) + PlaceholderWarnings(catalog, env, config)
    {
      var names := config.order;
      var i := 0;
      while i < |names|
        invariant 0 <= i <= |names|
        invariant warnings == old(warnings) + Findings(catalog, Placeholder, env, config, names[..i])
      {
        var name := names[i];
        var value := Get(config, name);
        if Truthy(value) {
          var lowerValue := ToLower(value.value);
          var hasPlaceholder := ContainsAny(lowerValue, catalog.placeholders);
          if hasPlaceholder {
            warnings := warnings + [Message(Placeholder, env, name)];
          }
        }
        assert names[..i + 1][..i] == names[..i];
        i := i + 1;
      }
      assert names[..i] == names;
    }

    /** Runs every step in order, never stopping early because of errors,
        and passes when no error was recorded.  A lookup that lands on an
        inherited member ends the run with the lists as they were when it
        threw. */
    method Validate(envFileFound: bool, config: Config) returns (outcome: Outcome)
      requires WellFormedCatalog(catalog)
      modifies this`errors, this`warnings, this`info
      ensures outcome == Threw <==> Throws(catalog, env)
      ensures outcome.Returned? ==> (outcome.passed <==> errors == [])
      ensures !Throws(catalog, env) ==>
        errors == old(errors) + RequiredErrors(catalog, env, config)
          + FormatErrors(catalog, env, config) + InsecureErrors(catalog, env, config)
      ensures !Throws(catalog, env) ==>
        warnings == old(warnings) + LoadWarnings(envFileFound)
          + RequiredWarnings(catalog, env, config) + PlaceholderWarnings(catalog, env, config)
      ensures !Throws(catalog, env) ==>
        info == old(info) + LoadInfo(envFileFound) + RecommendedInfo(catalog, env, config)
      ensures LookupHitsPrototype(catalog.required, env) ==>
        && errors == old(errors)
        && warnings == old(warnings) + LoadWarnings(envFileFound)
        && info == old(info) + LoadInfo(envFileFound)
      ensures !LookupHitsPrototype(catalog.required, env)
              && LookupHitsPrototype(catalog.recommended, env) ==>
        && errors == old(errors) + RequiredErrors(catalog, env, config)
        && warnings == old(warnings) + LoadWarnings(envFileFound)
             + RequiredWarnings(catalog, env, config)
        && info == old(info) + LoadInfo(envFileFound)
    {
      // Each step leaves the lists it does not push onto unchanged.
      ghost var errors0 := errors;
      LoadEnvFile(envFileFound);
      assert errors == errors0;
      ghost var info1 := info;
      var thrown := ValidateRequiredVariables(config);
      assert info == info1;
      if thrown {
        return Threw;
      }
      ghost var errors2, warnings2 := errors, warnings;
      thrown := ValidateRecommendedVariables(config);
      assert errors == errors2 && warnings == warnings2;
      if thrown {
        return Threw;
      }
      ValidatePatterns(config);
      assert warnings == warnings2;
      CheckInsecureValues(config);
      assert warnings == warnings2;
      CheckPlaceholders(config);
      outcome := Returned(|errors| == 0);
    }
  }

  /** The script's driver: a fresh validator, one run, and the verdict that
      becomes the exit status.  An uncaught exception also exits with status
      1, so `success` is the exit status 0. */
  method Run(nodeEnv: Option<string>, envFileFound: bool, config: Config) returns (success: bool)
    ensures success <==> Succeeds(Source, ActiveEnvironment(nodeEnv), envFileFound, config)
  {
    var validator := new EnvValidator(nodeEnv);
    var outcome := validator.Validate(envFileFound, config);
    success := outcome == Returned(true);
  }
}
