# Environment-variable validator, modelled in Dafny

This project models the rule engine of `scripts/validate-env.js`, a
pre-flight script that checks a process's environment variables before an
application starts. The script holds a static rule catalog. An
`EnvironmentValidator` object chooses the environment once (`NODE_ENV`, or
`development`). It then runs five checks in a fixed order: required,
recommended, format, insecure values, placeholders. Each check appends
messages to one of three lists: `errors`, `warnings` or `info`. The run
passes exactly when `errors` is empty.

Layout, one module per file:

- `text.dfy` (`JsText`): the JavaScript string operations the checks use.
  These are `trim()` blankness, `length` counted in UTF-16 code units,
  ASCII `toLowerCase()`, `includes()` and `some(...includes...)`. A search
  of a lower-cased value for a lower-case marker is proved to be a
  case-insensitive search.
- `formats.dfy` (`Formats`): each of the ten format regular expressions,
  written out as a predicate with JavaScript semantics. The dot excludes
  line terminators, `$` means end of input, and `\d` is ASCII.
- `seqs.dfy` (`Seqs`): repetition-free sequences.
- `catalog.dfy` (`Catalog`): the rule catalog as a value, `RuleCatalog`,
  with the environment fallbacks and the conditions the checks rely on
  (`WellFormedCatalog`). `Source` is the script's own catalog: its
  required, recommended, pattern, insecure and placeholder tables.
- `processenv.dfy` (`ProcessEnv`): the configuration is a map from names to
  strings plus the key enumeration order. It also models JavaScript
  truthiness and the choice of environment.
- `checks.dfy` (`Checks`): each check as a function of a catalog, an
  environment and a configuration. `Findings` is the walk that pushes one
  message per flagged name, `Evaluate` is a completed run, and `Throws`
  says when a run stops on an inherited table member. The properties
  of each check and of a run are proved here for every well-formed
  catalog.
- `validator.dfy` (`Validator`): the `EnvValidator` class. Its fields are
  the catalog, the environment, `errors`, `warnings` and `info`. It has one
  loop method per check, each proved to append exactly what `Checks` says.
  `Run` is the script's driver.
- `examples.dfy` (`Scenarios`): cases of the checks on the script's
  catalog. Each holds for every configuration in which the variables it
  names have the stated values.

The script reads its tables as module-level constants. The model passes
them to the checks as one `RuleCatalog` value, and the validator's
constructor always uses `Source`. The properties in `Checks` therefore hold
for any catalog with a development entry, lists without repetitions, and
key orders that list exactly the keys. `Catalog.SourceWellFormed` shows the
script's catalog is one of those.

Three details of the code that the model keeps:

- The "too short" test uses the untrimmed `value.length`, counted in UTF-16
  code units (scripts/validate-env.js:181), so surrounding white space
  counts towards the three characters.
- An environment without a recommended list gets no recommended checks
  (scripts/validate-env.js:188): the lookup falls back to `[]`, not to the
  development list.
- A missing `.env` file pushes a warning, not an info entry
  (scripts/validate-env.js:169).

The tables are plain object literals, so indexing one with a name it lacks
finds an inherited `Object.prototype` member when the name is one, such as
`constructor`, `toString` or `__proto__`. With such a `NODE_ENV` the
required lookup (scripts/validate-env.js:174) yields a truthy non-array,
`required.forEach` (scripts/validate-env.js:176) throws a `TypeError`,
nothing catches it, and the process exits with status 1. The model keeps
this: `Catalog.LookupHitsPrototype` names the case, `Validate` returns
`Threw`, and `Run` reports failure.

`Evaluate` is a Dafny function of the catalog, the environment, the `.env`
status and the configuration. Two runs on equal inputs therefore give equal
lists in the same order.

## Model

| member | source | states |
|---|---|---|
| Checks.Findings | scripts/validate-env.js:173-258 | a check's walk over its list pushes at most one message per listed name |
| Checks.StepCount | scripts/validate-env.js:173-258 | one step of a walk pushes a message that counts for a name exactly when it is that flagged name |
| Checks.FindingsCount | scripts/validate-env.js:173-258 | the message for a name is pushed once per occurrence of the name when the rule flags it, and never otherwise |
| Checks.FindingsExactlyOnce | scripts/validate-env.js:173-258 | over a list without repetitions, a flagged listed name gets exactly one message and every other name none |
| Checks.FindingsSource | scripts/validate-env.js:173-258 | every pushed message belongs to a listed name that the rule flags |
| Checks.FindingsEmpty | scripts/validate-env.js:173-258 | a check pushes nothing exactly when its rule flags none of the walked names |
| Checks.FindingsIgnoreEnvironment | scripts/validate-env.js:173-258 | only the insecure message depends on the environment's name |
| Checks.MessageInjective | scripts/validate-env.js:173-258 | two different names never share a message of the same kind |
| Checks.Flags | scripts/validate-env.js:179-254 | when each rule flags a name: missing or blank; set, not blank and shorter than 3 code units; set and failing its pattern; set with a lower-cased value containing one of its markers |
| Checks.Message | scripts/validate-env.js:180-255 | the text each rule pushes for a name; only the insecure message names the environment |
| Checks.Evaluate | scripts/validate-env.js:133-161 | the three lists of a completed run: each list is the concatenation, in call order, of what the steps push onto it, and no step is skipped because an earlier one found errors |
| Checks.Throws | scripts/validate-env.js:174-188 | the run stops with a `TypeError` when the required or the recommended lookup lands on an inherited member |
| Checks.Succeeds | scripts/validate-env.js:302-305 | exit status 0: the run does not throw and records no error |
| Checks.RequiredCheck | scripts/validate-env.js:173-185 | one "missing" error per required name that is absent, empty or all white space; otherwise one "too short" warning when the untrimmed UTF-16 length is below 3; never both |
| Checks.RecommendedCheck | scripts/validate-env.js:187-197 | one info entry per recommended name that is missing or blank; no entries for an environment without a recommended list |
| Checks.FormatCheck | scripts/validate-env.js:199-207 | one "invalid format" error per patterned name whose value is set and fails its pattern; an absent or empty value gives no error |
| Checks.InsecureCheck | scripts/validate-env.js:209-231 | nothing outside staging and production; there, one error per listed name whose lower-cased value contains one of its forbidden substrings |
| Checks.PlaceholderCheck | scripts/validate-env.js:233-259 | every configured variable is scanned, catalogued or not; one warning per set value containing a placeholder marker |
| Checks.InsecureIgnoresCase | scripts/validate-env.js:218-222 | with lower-case markers, a set listed value is flagged exactly when one of its markers occurs in it in any mix of ASCII cases |
| Checks.PlaceholderIgnoresCase | scripts/validate-env.js:248-252 | with lower-case markers, a set value is flagged exactly when some placeholder marker occurs in it in any mix of ASCII cases |
| Checks.PassedIff | scripts/validate-env.js:160 | a run passes exactly when all required names are set and not blank, all set patterned values match, and (in staging and production) no set listed value contains a forbidden substring; warnings, info and the `.env` status do not matter |
| Checks.SucceedsIff | scripts/validate-env.js:302-305 | the exit status is 0 exactly when the environment is not an inherited member missing from the tables and the `PassedIff` conditions hold |
| Checks.FormatErrorsEmpty | scripts/validate-env.js:199-207 | the format check adds no error exactly when every set patterned value matches its pattern |
| Checks.InsecureErrorsEmpty | scripts/validate-env.js:209-231 | the insecure check adds no error exactly when the environment is not high-stakes or no set listed value contains a forbidden substring |
| Checks.ErrorsAreErrorRules | scripts/validate-env.js:180-226 | every error of a run is the message of a missing, invalid-format or insecure finding for a name that rule flags |
| Checks.UnknownEnvironment | scripts/validate-env.js:174-213 | an environment with no entry of its own that is not staging or production gets the same errors and warnings as development, and its info list holds only the load status |
| Catalog.RequiredFor | scripts/validate-env.js:174 | the required list of an environment, or the development list when the table has no entry for it |
| Catalog.RecommendedFor | scripts/validate-env.js:188 | the recommended list of an environment, or no list at all |
| Catalog.IsHighStakes | scripts/validate-env.js:211 | the insecure check runs only in staging and production |
| Catalog.LookupHitsPrototype | scripts/validate-env.js:174 | indexing a table with a name it lacks finds an inherited member when the name is an `Object.prototype` member |
| Catalog.SourceWellFormed | scripts/validate-env.js:28-119 | the script's catalog has a development entry, lists without repetitions, and key orders that list exactly the keys |
| Catalog.SourceFallback | scripts/validate-env.js:174-213 | an environment missing from the script's tables uses the development required list, has no recommended list, and is not high-stakes; both lookups land on the prototype exactly when it names an inherited member |
| Catalog.RequiredListsDistinct | scripts/validate-env.js:28-73 | each required list names every variable once |
| Catalog.RecommendedListsDistinct | scripts/validate-env.js:76-89 | each recommended list names every variable once; both tables cover the same environments |
| Catalog.PatternNamesAreKeys | scripts/validate-env.js:92-103 | the format check visits each patterned name once, and only those |
| Catalog.InsecureNamesAreKeys | scripts/validate-env.js:106-119 | the insecure check visits each listed name once, and only those |
| Catalog.InsecureMarkersLowerCase | scripts/validate-env.js:106-119 | every insecure marker is its own lower case |
| Catalog.PlaceholderMarkersLowerCase | scripts/validate-env.js:234-243 | every placeholder marker is its own lower case |
| Catalog.SourceMarkersLowerCase | scripts/validate-env.js:106-243 | the script's catalog meets the condition of `InsecureIgnoresCase` and `PlaceholderIgnoresCase`, so both of its searches ignore case |
| ProcessEnv.ActiveEnvironment | scripts/validate-env.js:123 | the environment is `NODE_ENV` when that is a non-empty string, `development` otherwise, and never empty |
| ProcessEnv.Truthy | scripts/validate-env.js:218 | `undefined` and the empty string are falsy, every other string is truthy |
| ProcessEnv.MissingOrBlank | scripts/validate-env.js:179 | a value is absent, empty, or made only of JavaScript white space |
| Formats.LongRunSingleLine | scripts/validate-env.js:96-98 | on a value without line breaks, `.{32,}` holds exactly when the value is at least 32 UTF-16 code units long |
| Formats.LongRunBrokenLine | scripts/validate-env.js:96-98 | two parts each shorter than 32 code units joined by a line feed fail `.{32,}`, whatever the total length |
| Formats.PostgresAccepts | scripts/validate-env.js:93 | every `postgresql://U:P@H:PORT/DB` with non-empty single-line parts and a digit PORT satisfies the DATABASE_URL pattern |
| Formats.EmailAccepts | scripts/validate-env.js:100 | every `LOCAL@DOMAIN.TOP` with non-empty parts free of white space and '@' satisfies the EMAIL pattern |
| Formats.Matches | scripts/validate-env.js:92-103 | each of the ten catalog patterns, as the set of values its regular expression accepts |
| Formats.IsPostgresUrl | scripts/validate-env.js:93 | `^postgresql:\/\/.+:.+@.+:\d+\/.+$`, with `.` excluding line terminators |
| Formats.IsEmail | scripts/validate-env.js:100 | `^[^\s@]+@[^\s@]+\.[^\s@]+$` |
| Formats.StartsThenAny | scripts/validate-env.js:94-101 | a fixed prefix at the start followed by at least one character that is not a line terminator |
| Formats.HasRun | scripts/validate-env.js:96-98 | `.{32,}` anywhere in the value: a run of 32 code units without a line terminator |
| JsText.Utf16LengthAppend | scripts/validate-env.js:181 | `length` of a concatenation is the sum of the lengths |
| JsText.Utf16LengthSlice | scripts/validate-env.js:181 | a slice never has a greater `length` than the whole string |
| JsText.Utf16LengthBmp | scripts/validate-env.js:181 | with no character outside the Basic Multilingual Plane, `length` is the number of characters |
| JsText.Utf16Length | scripts/validate-env.js:181 | `length`: each character counts one code unit, or two outside the Basic Multilingual Plane, so it lies between the number of characters and twice that |
| JsText.IsWhiteSpace | scripts/validate-env.js:179 | the characters `trim()` removes: white space and line terminators |
| JsText.IsBlank | scripts/validate-env.js:179 | `value.trim() === ''`: every character is white space |
| JsText.ToLower | scripts/validate-env.js:219 | `toLowerCase()` on ASCII letters, character by character, keeping the length |
| JsText.ToLowerSlice | scripts/validate-env.js:219 | lower-casing commutes with taking a slice |
| JsText.ContainsAny | scripts/validate-env.js:220-222 | `markers.some(p => value.includes(p))` |
| JsText.LoweredSearchIgnoresCase | scripts/validate-env.js:219-221 | for a lower-case marker, `value.toLowerCase().includes(p)` holds exactly when `p` occurs in the value in any mix of ASCII cases |
| JsText.LoweredSearchAnyIgnoresCase | scripts/validate-env.js:219-222 | the same for `some` over a list of lower-case markers |
| JsText.ToLowerUnchanged | scripts/validate-env.js:219 | a value without upper-case letters is its own lower case |
| JsText.ToLowerAppend | scripts/validate-env.js:219 | lower-casing a concatenation lower-cases each part |
| JsText.ContainsInfix | scripts/validate-env.js:221 | a string built around `p` includes `p` |
| Validator.EnvValidator.constructor | scripts/validate-env.js:122-127 | the catalog is the script's; the environment is `NODE_ENV` when that is a non-empty string and `development` otherwise; all three lists start empty |
| Validator.EnvValidator.LoadEnvFile | scripts/validate-env.js:163-171 | appends "loaded" to info when the file exists, "not found" to warnings otherwise |
| Validator.EnvValidator.ValidateRequiredVariables | scripts/validate-env.js:173-185 | throws, pushing nothing, exactly when the required lookup lands on an inherited member; otherwise appends exactly `RequiredErrors` to errors and `RequiredWarnings` to warnings; info is untouched |
| Validator.EnvValidator.ValidateRecommendedVariables | scripts/validate-env.js:187-197 | throws, pushing nothing, exactly when the recommended lookup lands on an inherited member; otherwise appends exactly `RecommendedInfo` to info; errors and warnings are untouched |
| Validator.EnvValidator.ValidatePatterns | scripts/validate-env.js:199-207 | appends exactly `FormatErrors` to errors and touches nothing else |
| Validator.EnvValidator.CheckInsecureValues | scripts/validate-env.js:209-231 | appends exactly `InsecureErrors` to errors (nothing outside staging and production) |
| Validator.EnvValidator.CheckPlaceholders | scripts/validate-env.js:233-259 | appends exactly `PlaceholderWarnings` to warnings and never adds an error |
| Validator.EnvValidator.Validate | scripts/validate-env.js:133-161 | runs all six steps in order without stopping early on errors: errors grow by the required, format and insecure errors, warnings by the load, too-short and placeholder warnings, info by the load and recommended entries, and the result is "errors is empty"; when a lookup throws, the run ends there with exactly the messages pushed before it |
| Validator.Run | scripts/validate-env.js:302-305 | the exit status is 0 exactly when the run on the script's catalog and the chosen environment does not throw and records no error |
| Scenarios.MissingRequiredExample | scripts/validate-env.js:173-185 | with PORT unset and NODE_ENV set, development reports PORT missing once and NODE_ENV not at all |
| Scenarios.TooShortExample | scripts/validate-env.js:181-182 | a two-character required value gives one "too short" warning and no "missing" error |
| Scenarios.UntrimmedLengthExample | scripts/validate-env.js:179-181 | two spaces and a letter are neither blank nor too short |
| Scenarios.AstralTooShortExample | scripts/validate-env.js:181 | one character outside the Basic Multilingual Plane has length 2 and is too short |
| Scenarios.AstralLongEnoughExample | scripts/validate-env.js:181 | a letter followed by such a character has length 3 and is not too short |
| Scenarios.PortAbsentExample | scripts/validate-env.js:201-203 | an absent PORT gives no format error |
| Scenarios.PortNotDigitsExample | scripts/validate-env.js:199-207 | PORT = "abc" gives exactly one format error, in every environment |
| Scenarios.InsecureInProduction | scripts/validate-env.js:215-227 | in production, a JWT_SECRET with "secret" anywhere in it, in any case, is exactly one error |
| Scenarios.PlaceholderExample | scripts/validate-env.js:245-256 | a variable no rule names, holding "your-value-here", gets one placeholder warning in every environment |
| Scenarios.UncataloguedNoErrors | scripts/validate-env.js:199-231 | a configuration holding only such a variable has no format or insecure error, in every environment |
| Scenarios.InheritedEnvironmentFails | scripts/validate-env.js:174-176 | with `NODE_ENV=constructor` the run throws and fails, whatever the configuration |

## Left out

- Loading `.env` (scripts/validate-env.js:163-171) is modelled only by its status message, through the `envFileFound` flag. The filesystem probe and the `dotenv` merge are foreign I/O. The configuration the checks receive is taken to be the one after the merge.
- Reading `process.env` and `NODE_ENV` from the ambient process is replaced by explicit parameters: `nodeEnv` and a `Config`. As in the source, the environment is chosen before `.env` is loaded, so a `NODE_ENV` defined only in `.env` does not select the rules.
- Terminal output is not modelled: `log`, `printResults`, the colour table and the banner lines. These only print the lists.
- `process.exit` is not modelled. `Run` returns whether the exit status is 0.
- `toLowerCase()` is modelled as ASCII lower-casing. Unicode case mappings are not modelled, such as U+212A KELVIN SIGN to `k` and U+0130 to `i` plus a combining dot.
- Strings are sequences of Unicode scalar values. A JavaScript string holding an unpaired surrogate cannot be represented.
- The stack trace that Node.js prints for the uncaught `TypeError` of an inherited environment name is not modelled; only the failed exit status is.
- The regular-expression engine is not modelled. Each of the ten catalog patterns is a hand-written predicate instead.
- Checks.PlaceholderCheck: requires a well-formed configuration, where the enumeration order names each variable exactly once. `Object.keys` always yields such an order.
