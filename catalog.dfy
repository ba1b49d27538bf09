/** The rule catalog: static data read by the checks.  The engine takes the
    catalog as a value, `RuleCatalog`; `Source` is the script's own catalog.
    Each JavaScript object of the catalog becomes a `map`; where a check walks
    `Object.keys(...)` the key order is kept as a separate sequence. */
module Catalog {
  import opened JsText
  import opened Formats
  import opened Seqs

  const Development: string := "development"

  datatype RuleCatalog = RuleCatalog(
    required: map<string, seq<string>>,     // requiredVariables
    recommended: map<string, seq<string>>,  // recommendedVariables
    patternNames: seq<string>,              // Object.keys(patterns)
    patterns: map<string, Format>,          // patterns
    insecureNames: seq<string>,             // Object.keys(insecurePatterns)
    insecure: map<string, seq<string>>,     // insecurePatterns
    placeholders: seq<string>)              // placeholderPatterns

  /** What the engine relies on: a development entry to fall back on, lists
      without repetitions, and key orders that list exactly the keys. */
  ghost predicate WellFormedCatalog(cat: RuleCatalog) {
    && Development in cat.required
    && (forall env | env in cat.required :: Distinct(cat.required[env]))
    && (forall env | env in cat.recommended :: Distinct(cat.recommended[env]))
    && Distinct(cat.patternNames)
    && (forall n :: n in cat.patterns <==> n in cat.patternNames)
    && Distinct(cat.insecureNames)
    && (forall n :: n in cat.insecure <==> n in cat.insecureNames)
  }

  /** Every marker in `ps` is its own lower case, so a search for it in a
      lower-cased value ignores case. */
  predicate LowerCaseMarkers(ps: seq<string>) {
    forall p | p in ps :: ToLower(p) == p
  }

  /** The members every plain JavaScript object inherits from
      `Object.prototype`.  Indexing a catalog table with one of these names,
      when it is not a key of the table, yields that member (a function, or
      `Object.prototype` itself for `__proto__`): a truthy value that is not
      an array. */
  const InheritedMembers: set<string> := {
    "constructor", "__proto__", "hasOwnProperty", "isPrototypeOf",
    "propertyIsEnumerable", "toLocaleString", "toString", "valueOf",
    "__defineGetter__", "__defineSetter__", "__lookupGetter__",
    "__lookupSetter__"}

  /** `table[env]` finds an inherited member instead of a list, so the
      `.forEach` on the result throws a `TypeError`. */
  predicate LookupHitsPrototype(table: map<string, seq<string>>, env: string) {
    env !in table && env in InheritedMembers
  }

  /** `requiredVariables[env] || requiredVariables.development` */
  function RequiredFor(cat: RuleCatalog, env: string): seq<string>
    requires Development in cat.required
  {
    if env in cat.required then cat.required[env] else cat.required[Development]
  }

  /** `recommendedVariables[env] || []`: no fallback to development. */
  function RecommendedFor(cat: RuleCatalog, env: string): seq<string> {
    if env in cat.recommended then cat.recommended[env] else []
  }

  /** The environments in which the insecure-value check runs. */
  predicate IsHighStakes(env: string) {
    env == "staging" || env == "production"
  }

  /** Required variables per environment. */
  const RequiredTable: map<string, seq<string>> := map[
    "development" := ["NODE_ENV", "PORT", "DATABASE_URL", "JWT_SECRET",
                      "JWT_ACCESS_SECRET", "JWT_REFRESH_SECRET"],
    "test" := ["NODE_ENV", "PORT", "TEST_DATABASE_URL", "JWT_SECRET"],
    "staging" := ["NODE_ENV", "PORT", "DATABASE_URL", "JWT_SECRET",
                  "JWT_ACCESS_SECRET", "JWT_REFRESH_SECRET", "SENTRY_DSN",
                  "CORS_ORIGIN"],
    "production" := ["NODE_ENV", "PORT", "DATABASE_URL", "JWT_SECRET",
                     "JWT_ACCESS_SECRET", "JWT_REFRESH_SECRET", "SENTRY_DSN",
                     "CORS_ORIGIN", "ENCRYPTION_KEY", "ALLOWED_ORIGINS"],
    "preview" := ["NODE_ENV", "PORT", "DATABASE_URL", "JWT_SECRET",
                  "PR_NUMBER", "BRANCH_NAME"]
  ]

  /** Optional but recommended variables per environment. */
  const RecommendedTable: map<string, seq<string>> := map[
    "development" := ["LOG_LEVEL", "DEBUG"],
    "test" := ["CI", "TEST_TIMEOUT"],
    "staging" := ["BACKUP_ENABLED", "MONITORING_ENABLED"],
    "production" := ["BACKUP_ENABLED", "MONITORING_ENABLED", "APM_ENABLED",
                     "CLOUDWATCH_LOG_GROUP", "MIN_REPLICAS", "MAX_REPLICAS"],
    "preview" := ["PREVIEW_LIFETIME_HOURS", "CLEANUP_ON_PR_CLOSE"]
  ]

  /** Format rules, and the order in which the format check visits them. */
  const PatternNames: seq<string> :=
    ["DATABASE_URL", "MONGODB_URI", "REDIS_URL", "JWT_SECRET",
     "JWT_ACCESS_SECRET", "JWT_REFRESH_SECRET", "ENCRYPTION_KEY", "EMAIL",
     "URL", "PORT"]

  const PatternTable: map<string, Format> := map[
    "DATABASE_URL" := PostgresUrl,
    "MONGODB_URI" := MongoUri,
    "REDIS_URL" := RedisUrl,
    "JWT_SECRET" := LongRun,
    "JWT_ACCESS_SECRET" := LongRun,
    "JWT_REFRESH_SECRET" := LongRun,
    "ENCRYPTION_KEY" := HexKey,
    "EMAIL" := Email,
    "URL" := HttpUrl,
    "PORT" := Digits
  ]

  /** Forbidden substrings per variable, and the order in which the insecure
      check visits them. */
  const InsecureNames: seq<string> :=
    ["JWT_SECRET", "JWT_ACCESS_SECRET", "JWT_REFRESH_SECRET", "DB_PASSWORD"]

  const InsecureTable: map<string, seq<string>> := map[
    "JWT_SECRET" := ["secret", "password", "test", "dev", "12345", "change", "example"],
    "JWT_ACCESS_SECRET" := ["secret", "password", "test", "dev", "12345"],
    "JWT_REFRESH_SECRET" := ["secret", "password", "test", "dev", "12345"],
    "DB_PASSWORD" := ["password", "admin", "12345", "postgres"]
  ]

  /** Substrings that mark a value as an unfilled template. */
  const PlaceholderMarkers: seq<string> :=
    ["your-", "your_", "change-this", "change_this", "example", "placeholder",
     "todo", "${"]

  /** The script's catalog. */
  const Source: RuleCatalog := RuleCatalog(
    RequiredTable, RecommendedTable, PatternNames, PatternTable,
    InsecureNames, InsecureTable, PlaceholderMarkers)

  /** The catalog's lists have no repetitions and each visiting order lists
      exactly the keys of its table. */
  lemma RequiredListsDistinct()
    ensures forall env | env in RequiredTable :: Distinct(RequiredTable[env])
  {
  }

  lemma RecommendedListsDistinct()
    ensures forall env | env in RecommendedTable :: Distinct(RecommendedTable[env])
    ensures RecommendedTable.Keys == RequiredTable.Keys
  {
  }

  lemma PatternNamesAreKeys()
    ensures Distinct(PatternNames)
    ensures forall n :: n in PatternTable <==> n in PatternNames
  {
  }

  lemma InsecureNamesAreKeys()
    ensures Distinct(InsecureNames)
    ensures forall n :: n in InsecureTable <==> n in InsecureNames
  {
  }

  lemma SourceWellFormed()
    ensures WellFormedCatalog(Source)
  {
    RequiredListsDistinct();
    RecommendedListsDistinct();
    PatternNamesAreKeys();
    InsecureNamesAreKeys();
  }

  /** An environment that is not a key of the script's tables is checked
      against the development required list, gets no recommended list, and
      is not a high-stakes one, unless it names an inherited member, in
      which case both table lookups land on the prototype. */
  lemma SourceFallback(env: string)
    requires env !in RequiredTable
    ensures RequiredFor(Source, env) == RequiredFor(Source, Development)
    ensures env !in Source.recommended && RecommendedFor(Source, env) == []
    ensures !IsHighStakes(env)
    ensures LookupHitsPrototype(Source.required, env) <==> env in InheritedMembers
    ensures LookupHitsPrototype(Source.recommended, env) <==> env in InheritedMembers
  {
    RecommendedListsDistinct();
  }

  /** The script writes its insecure markers and placeholder markers in
      lower case. */
  lemma InsecureMarkersLowerCase()
    ensures forall n | n in InsecureTable :: LowerCaseMarkers(InsecureTable[n])
  {
    ToLowerUnchanged("secret");
    ToLowerUnchanged("password");
    ToLowerUnchanged("test");
    ToLowerUnchanged("dev");
    ToLowerUnchanged("12345");
    ToLowerUnchanged("change");
    ToLowerUnchanged("example");
    ToLowerUnchanged("admin");
    ToLowerUnchanged("postgres");
  }

  lemma PlaceholderMarkersLowerCase()
    ensures LowerCaseMarkers(PlaceholderMarkers)
  {
    ToLowerUnchanged("your-");
    ToLowerUnchanged("your_");
    ToLowerUnchanged("change-this");
    ToLowerUnchanged("change_this");
    ToLowerUnchanged("example");
    ToLowerUnchanged("placeholder");
    ToLowerUnchanged("todo");
    ToLowerUnchanged("${");
  }

  lemma SourceMarkersLowerCase()
    ensures forall n | n in Source.insecure :: LowerCaseMarkers(Source.insecure[n])
    ensures LowerCaseMarkers(Source.placeholders)
  {
    InsecureMarkersLowerCase();
    PlaceholderMarkersLowerCase();
  }
}
